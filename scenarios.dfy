/** The two-way intersection scenarios: the lengths and speed limits read
    from the network parameters in the constructor, the edge starts, and
    the random start positions. The randomness (lane bits, exponential
    samples, edge choices) is an input stream with one draw per loop
    iteration. */
module Scenarios {
  import opened Common

  /** A value in a parameter dictionary. */
  datatype Param =
    | PNum(x: real)
    | PInt(i: int)
    | PBool(b: bool)
    | PText(s: string)
    | PList(items: seq<Param>)
    | PDict(entries: map<string, Param>)
    | PNone

  /** Python arithmetic on a parameter: ints, floats and bools are numbers
      (a bool counts as 0 or 1), anything else is a TypeError. */
  function AsNumber(p: Param): (r: Result<real>)
    ensures r.Ok? <==> p.PNum? || p.PInt? || p.PBool?
    ensures p.PNum? ==> r == Ok(p.x)
    ensures p.PInt? ==> r == Ok(p.i as real)
  {
    match p
    case PNum(x) => Ok(x)
    case PInt(i) => Ok(i as real)
    case PBool(b) => Ok(if b then 1.0 else 0.0)
    case _ => Err(TypeError("unsupported operand type"))
  }

  /** Dictionary lookup: a missing key is a KeyError. */
  function Lookup(params: map<string, Param>, key: string): (r: Result<Param>)
    ensures r.Ok? <==> key in params
    ensures r.Ok? ==> r.value == params[key]
    ensures r.Err? ==> r.error == KeyError(key)
  {
    if key in params then Ok(params[key]) else Err(KeyError(key))
  }

  // ---------------------------------------------------------------------
  // The constructor
  // ---------------------------------------------------------------------

  const JunctionBase: real := 2.9
  const JunctionPerLane: real := 3.3
  const InnerSpaceLen: real := 0.28

  /** The length of a junction crossed by `lanes` lanes. */
  function JunctionLen(lanes: real): real {
    JunctionBase + JunctionPerLane * lanes
  }

  /** The speed limit of each direction, as stored (a number keeps its
      Python type). */
  datatype SpeedLimit = SpeedLimit(horizontal: Param, vertical: Param)

  /** The lane counts per edge and the values a scenario stores. */
  datatype Lanes = Lanes(top: Param, bottom: Param, left: Param, right: Param)

  datatype Scenario = Scenario(
    leftLen: real, rightLen: real, bottomLen: real, topLen: real,
    horizontalJunctionLen: real, verticalJunctionLen: real,
    lanes: Lanes, speedLimit: SpeedLimit)

  // The messages of the speed-limit exceptions.
  const ListIndexMsg: string := "list indices must be integers or slices, not str"
  const StringIndexMsg: string := "string indices must be integers"
  const NoneIterMsg: string := "argument of type 'NoneType' is not iterable"
  const InvalidSpeedLimitMsg: string := "speed limit must contain a number or a dict with keys: \"vertical\" and \"horizontal\""

  /** Whether `t` occurs in `s` (Python's `in` on strings). */
  function Contains(s: string, t: string): (r: bool)
    ensures |t| == 0 ==> r
    ensures r ==> |t| <= |s|
    decreases |s|
  {
    if |t| <= |s| && s[..|t|] == t then true
    else if |s| == 0 then false
    else Contains(s[1..], t)
  }

  /** The speed-limit normalisation: a missing entry is a ValueError; a
      number (int, float or bool) applies to both directions; a container
      holding both "vertical" and "horizontal" is indexed by them (only a
      dict can be); any other value is a ValueError, and a value that
      cannot be searched with `in` is a TypeError. */
  function SpeedLimitOf(entry: Result<Param>): (r: Result<SpeedLimit>)
    ensures entry.Err? ==> r == Err(ValueError("speed limit not supplied"))
    ensures entry.Ok? && AsNumber(entry.value).Ok? ==> r == Ok(SpeedLimit(entry.value, entry.value))
    ensures entry.Ok? && entry.value.PDict? ==>
      (r.Ok? <==> "vertical" in entry.value.entries && "horizontal" in entry.value.entries)
    ensures r.Ok? && entry.Ok? && entry.value.PDict? ==>
      r.value == SpeedLimit(entry.value.entries["horizontal"], entry.value.entries["vertical"])
    ensures r.Ok? ==> entry.Ok? && (AsNumber(entry.value).Ok? || entry.value.PDict?)
    ensures entry.Ok? && entry.value.PDict? && r.Err? ==> r.error.ValueError?
    ensures entry == Ok(PNone) ==> r.Err? && r.error.TypeError?
    ensures entry.Ok? && entry.value.PText? ==>
      r.Err? && (r.error.TypeError? <==> Contains(entry.value.s, "vertical") && Contains(entry.value.s, "horizontal")) &&
      (r.error.TypeError? || r.error.ValueError?)
    ensures entry.Ok? && entry.value.PList? ==>
      r.Err? && (r.error.TypeError? <==> PText("vertical") in entry.value.items && PText("horizontal") in entry.value.items) &&
      (r.error.TypeError? || r.error.ValueError?)
  {
    if entry.Err? then Err(ValueError("speed limit not supplied"))
    else
      var p := entry.value;
      var invalid := Err(ValueError(InvalidSpeedLimitMsg));
      match p
      case PNum(_) => Ok(SpeedLimit(p, p))
      case PInt(_) => Ok(SpeedLimit(p, p))
      case PBool(_) => Ok(SpeedLimit(p, p))
      case PDict(m) =>
        if "vertical" in m && "horizontal" in m then Ok(SpeedLimit(m["horizontal"], m["vertical"])) else invalid
      case _ => Err(SearchError(p))
  }

  /** The error of the dict branch for a value that is neither a number nor
      a dict: `in` on None is a TypeError; a string or a list holding both
      words passes the test and then fails when indexed by "horizontal",
      also a TypeError; any other string or list reaches the ValueError. */
  function SearchError(p: Param): (e: Error)
    requires p.PText? || p.PList? || p.PNone?
    ensures p.PNone? ==> e.TypeError?
    ensures p.PText? ==> (e.TypeError? <==> Contains(p.s, "vertical") && Contains(p.s, "horizontal"))
    ensures p.PList? ==> (e.TypeError? <==> PText("vertical") in p.items && PText("horizontal") in p.items)
    ensures e.TypeError? || e.ValueError?
  {
    var invalid := ValueError(InvalidSpeedLimitMsg);
    match p
    case PText(s) =>
      if Contains(s, "vertical") && Contains(s, "horizontal") then TypeError(StringIndexMsg)
      else invalid
    case PList(items) =>
      if PText("vertical") in items && PText("horizontal") in items then TypeError(ListIndexMsg)
      else invalid
    case PNone => TypeError(NoneIterMsg)
  }

  /** The four edge lengths and the two junction lengths, read in the
      code's order; a lane count that is not a number fails when it is
      multiplied, a length that is not a number when they are added. */
  datatype Lengths = Lengths(left: real, right: real, bottom: real, top: real, horizontalJunction: real, verticalJunction: real)

  function Total(l: Lengths): real {
    l.left + l.right + l.horizontalJunction + l.bottom + l.top + l.verticalJunction
  }

  /** The entry `key` exists and is a number. */
  predicate NumberAt(params: map<string, Param>, key: string) {
    key in params && AsNumber(params[key]).Ok?
  }

  function ValueAt(params: map<string, Param>, key: string): real
    requires NumberAt(params, key)
  {
    AsNumber(params[key]).value
  }

  function LengthsOf(params: map<string, Param>): (r: Result<Lengths>)
    ensures r.Ok? ==> && NumberAt(params, "vertical_lanes") && NumberAt(params, "horizontal_lanes")
                      && NumberAt(params, "horizontal_length_in") && NumberAt(params, "horizontal_length_out")
                      && NumberAt(params, "vertical_length_in") && NumberAt(params, "vertical_length_out")
    ensures r.Ok? ==> r.value == Lengths(
      ValueAt(params, "horizontal_length_in"), ValueAt(params, "horizontal_length_out"),
      ValueAt(params, "vertical_length_in"), ValueAt(params, "vertical_length_out"),
      JunctionLen(ValueAt(params, "vertical_lanes")), JunctionLen(ValueAt(params, "horizontal_lanes")))
  {
    if "horizontal_length_in" !in params then Err(KeyError("horizontal_length_in"))
    else if "horizontal_length_out" !in params then Err(KeyError("horizontal_length_out"))
    else if "vertical_length_in" !in params then Err(KeyError("vertical_length_in"))
    else if "vertical_length_out" !in params then Err(KeyError("vertical_length_out"))
    else if "vertical_lanes" !in params then Err(KeyError("vertical_lanes"))
    else if !NumberAt(params, "vertical_lanes") then Err(AsNumber(params["vertical_lanes"]).error)
    else if "horizontal_lanes" !in params then Err(KeyError("horizontal_lanes"))
    else if !NumberAt(params, "horizontal_lanes") then Err(AsNumber(params["horizontal_lanes"]).error)
    else if !(NumberAt(params, "horizontal_length_in") && NumberAt(params, "horizontal_length_out") &&
              NumberAt(params, "vertical_length_in") && NumberAt(params, "vertical_length_out")) then
      Err(TypeError("unsupported operand type"))
    else
      Ok(Lengths(ValueAt(params, "horizontal_length_in"), ValueAt(params, "horizontal_length_out"),
                 ValueAt(params, "vertical_length_in"), ValueAt(params, "vertical_length_out"),
                 JunctionLen(ValueAt(params, "vertical_lanes")), JunctionLen(ValueAt(params, "horizontal_lanes"))))
  }

  /** What the constructor builds from the parameters once "length" has
      been written into them. */
  function ScenarioOf(params: map<string, Param>): (r: Result<Scenario>)
    ensures r.Ok? <==> LengthsOf(params).Ok? && SpeedLimitOf(Lookup(params, "speed_limit")).Ok?
    ensures r.Ok? ==> r.value.speedLimit == SpeedLimitOf(Lookup(params, "speed_limit")).value
    ensures r.Ok? ==> r.value.lanes == Lanes(params["vertical_lanes"], params["vertical_lanes"],
                                             params["horizontal_lanes"], params["horizontal_lanes"])
  {
    match LengthsOf(params)
    case Err(e) => Err(e)
    case Ok(l) =>
      var lanes := Lanes(params["vertical_lanes"], params["vertical_lanes"],
                         params["horizontal_lanes"], params["horizontal_lanes"]);
      match SpeedLimitOf(Lookup(params, "speed_limit"))
      case Err(e) => Err(e)
      case Ok(limit) =>
        Ok(Scenario(l.left, l.right, l.bottom, l.top, l.horizontalJunction, l.verticalJunction, lanes, limit))
  }

  /** The constructor's checks for missing lane counts come after the lane
      counts were read, so those ValueErrors are never raised: a missing
      count is a KeyError. */
  lemma LaneValueErrorsUnreachable(params: map<string, Param>)
    ensures ScenarioOf(params) != Err(ValueError("number of horizontal lanes not supplied"))
    ensures ScenarioOf(params) != Err(ValueError("number of vertical lanes not supplied"))
    ensures ("horizontal_length_in" in params && "horizontal_length_out" in params && "vertical_length_in" in params &&
             "vertical_length_out" in params && "vertical_lanes" !in params) ==> ScenarioOf(params) == Err(KeyError("vertical_lanes"))
    ensures ("horizontal_length_in" in params && "horizontal_length_out" in params && "vertical_length_in" in params &&
             "vertical_length_out" in params && NumberAt(params, "vertical_lanes") && "horizontal_lanes" !in params) ==>
            ScenarioOf(params) == Err(KeyError("horizontal_lanes"))
  {
  }

  /** The mutable network parameters the constructor writes into. */
  class NetParams {
    var additionalParams: map<string, Param>

    constructor (additionalParams: map<string, Param>)
      ensures this.additionalParams == additionalParams
    {
      this.additionalParams := additionalParams;
    }
  }

  /** The constructor of both two-way intersection scenarios, up to the
      base-class call: once the six lengths are known their sum is written
      into the parameters as "length", even when the speed limit then
      fails. */
  method Init(net: NetParams) returns (r: Result<Scenario>)
    modifies net
    ensures LengthsOf(old(net.additionalParams)).Ok? ==>
      net.additionalParams == old(net.additionalParams)["length" := PNum(Total(LengthsOf(old(net.additionalParams)).value))]
    ensures LengthsOf(old(net.additionalParams)).Err? ==> net.additionalParams == old(net.additionalParams)
    ensures r == ScenarioOf(old(net.additionalParams))
  {
    var lengths := LengthsOf(net.additionalParams);
    if lengths.Err? {
      return Err(lengths.error);
    }
    var l := lengths.value;
    net.additionalParams := net.additionalParams["length" := PNum(Total(l))];
    var params := net.additionalParams;
    var limit := SpeedLimitOf(Lookup(params, "speed_limit"));
    if limit.Err? {
      return Err(limit.error);
    }
    var lanes := Lanes(params["vertical_lanes"], params["vertical_lanes"], params["horizontal_lanes"], params["horizontal_lanes"]);
    r := Ok(Scenario(l.left, l.right, l.bottom, l.top, l.horizontalJunction, l.verticalJunction, lanes, limit.value));
  }

  /** The total written into the parameters is the sum of the four edge
      lengths and the two junctions, each 2.9 plus 3.3 per crossing lane. */
  lemma TotalLength(params: map<string, Param>)
    requires LengthsOf(params).Ok?
    ensures var l := LengthsOf(params).value;
      Total(l) == ValueAt(params, "horizontal_length_in") + ValueAt(params, "horizontal_length_out") +
                  ValueAt(params, "vertical_length_in") + ValueAt(params, "vertical_length_out") +
                  (2.9 + 3.3 * ValueAt(params, "vertical_lanes")) + (2.9 + 3.3 * ValueAt(params, "horizontal_lanes"))
  {
  }

  // ---------------------------------------------------------------------
  // Edge starts
  // ---------------------------------------------------------------------

  /** The absolute start of each edge of the first scenario. */
  function EdgeStarts(s: Scenario): (r: seq<(string, real)>)
    ensures |r| == 4 && r[0] == ("bottom", 0.0) && r[1].0 == "top" && r[2].0 == "left" && r[3].0 == "right"
    ensures r[3].1 == r[2].1 + s.leftLen + s.horizontalJunctionLen
  {
    [("bottom", 0.0),
     ("top", s.bottomLen + s.verticalJunctionLen),
     ("left", s.bottomLen + s.verticalJunctionLen + s.topLen),
     ("right", s.bottomLen + s.verticalJunctionLen + s.topLen + s.leftLen + s.horizontalJunctionLen)]
  }

  /** With non-negative lengths and lane counts the edges start in the
      order bottom = 0, top, left, right. */
  lemma EdgeStartsOrdered(params: map<string, Param>)
    requires ScenarioOf(params).Ok?
    requires var l := LengthsOf(params).value; l.left >= 0.0 && l.bottom >= 0.0 && l.top >= 0.0
    requires ValueAt(params, "vertical_lanes") >= 0.0 && ValueAt(params, "horizontal_lanes") >= 0.0
    ensures var e := EdgeStarts(ScenarioOf(params).value);
      e[0].1 == 0.0 <= e[1].1 <= e[2].1 <= e[3].1
  {
  }

  // ---------------------------------------------------------------------
  // Start positions
  // ---------------------------------------------------------------------

  /** The entry edges a vehicle can start on. */
  datatype StartEdge = Left | AltLeft1 | Bottom | AltBottom1 | NewRight | AltRight1 | NewTop | AltTop1

  function Name(e: StartEdge): string {
    match e
    case Left => "left"
    case AltLeft1 => "altleft1"
    case Bottom => "bottom"
    case AltBottom1 => "altbottom1"
    case NewRight => "newright"
    case AltRight1 => "altright1"
    case NewTop => "newtop"
    case AltTop1 => "alttop1"
  }

  /** The lengths of the entry edges of the second scenario. */
  function EdgeLength(e: StartEdge): (r: real)
    ensures r == 20.0 || r == 1480.0
  {
    match e
    case Left => 20.0
    case AltLeft1 => 1480.0
    case Bottom => 20.0
    case AltBottom1 => 1480.0
    case NewRight => 20.0
    case AltRight1 => 1480.0
    case NewTop => 20.0
    case AltTop1 => 1480.0
  }

  /** One iteration's random values: the lane bit, the exponential sample
      with rate 1 / intensity, and the edge the second scenario samples. */
  datatype Draw = Draw(lane: bool, sample: real, edge: StartEdge)

  /** `d_inc`: the entry speed times the draw's exponential sample. */
  function Increment(vEnter: real, dr: Draw): real {
    vEnter * dr.sample
  }

  datatype Start = Start(edge: StartEdge, pos: real)

  datatype Placement = Placement(positions: seq<Start>, lanes: seq<int>)

  /** The intensity and the entry speed from the initial configuration.
      Both keys are looked up first (a missing one is a KeyError); the
      values are only used inside the loop, so with no vehicle to place
      nothing else can fail and the speed returned is a placeholder 0. In
      the first iteration `1.0 / rate` is evaluated before the product with
      the speed: a non-numeric intensity is a TypeError, a zero one a
      ZeroDivisionError, and only then a non-numeric speed a TypeError. */
  function Rates(config: map<string, Param>, numVehicles: nat): (r: Result<real>)
    ensures !("intensity" in config) ==> r == Err(KeyError("intensity"))
    ensures "intensity" in config && !("enter_speed" in config) ==> r == Err(KeyError("enter_speed"))
    ensures r.Ok? <==>
      && "intensity" in config && "enter_speed" in config
      && (numVehicles == 0 || (NumberAt(config, "intensity") && ValueAt(config, "intensity") != 0.0 && NumberAt(config, "enter_speed")))
    ensures r.Ok? && numVehicles > 0 ==> r.value == ValueAt(config, "enter_speed")
    ensures numVehicles > 0 && "enter_speed" in config && "intensity" in config && !NumberAt(config, "intensity") ==>
      r.Err? && r.error.TypeError?
    ensures numVehicles > 0 && "enter_speed" in config && NumberAt(config, "intensity") && ValueAt(config, "intensity") == 0.0 ==>
      r == Err(ZeroDivisionError)
  {
    match Lookup(config, "intensity")
    case Err(e) => Err(e)
    case Ok(rate) =>
      match Lookup(config, "enter_speed")
      case Err(e) => Err(e)
      case Ok(speed) =>
        if numVehicles == 0 then Ok(0.0)
        else if AsNumber(rate).Err? then Err(TypeError("unsupported operand type"))
        else if AsNumber(rate).value == 0.0 then Err(ZeroDivisionError)
        else if AsNumber(speed).Err? then Err(TypeError("unsupported operand type"))
        else Ok(AsNumber(speed).value)
  }

  /** The first scenario's loop: one cursor from 1; a draw whose increment
      exceeds 10 moves it and places a vehicle on "left" or "bottom"; None
      when the stream runs out first. */
  function Spread(x: real, ps: seq<Start>, draws: seq<Draw>, n: nat, vEnter: real): Option<seq<Start>>
    decreases |draws|
  {
    if |ps| >= n then Some(ps)
    else if |draws| == 0 then None
    else
      var (x', ps') := SpreadDraw(x, ps, draws[0], vEnter);
      Spread(x', ps', draws[1..], n, vEnter)
  }

  /** One iteration of the first scenario's loop: an increment over 10
      moves the cursor and places a vehicle there; any other draw changes
      nothing. */
  function SpreadDraw(x: real, ps: seq<Start>, dr: Draw, vEnter: real): (r: (real, seq<Start>))
    ensures Increment(vEnter, dr) > 10.0 ==> r == (x + Increment(vEnter, dr), ps + [Start(EntryEdge(dr.lane), x + Increment(vEnter, dr))])
    ensures Increment(vEnter, dr) <= 10.0 ==> r == (x, ps)
  {
    var d := Increment(vEnter, dr);
    if d > 10.0 then (x + d, ps + [Start(EntryEdge(dr.lane), x + d)]) else (x, ps)
  }

  /** The first scenario's entry edge for a lane bit. */
  function EntryEdge(leftLane: bool): StartEdge {
    if leftLane then Left else Bottom
  }

  /** The number of draws whose increment exceeds 10. */
  function Accepted(draws: seq<Draw>, vEnter: real): (c: nat)
    ensures c <= |draws|
  {
    if |draws| == 0 then 0
    else (if Increment(vEnter, draws[0]) > 10.0 then 1 else 0) + Accepted(draws[1..], vEnter)
  }

  /** The positions one shared cursor produces: on "left" or "bottom",
      increasing by more than 10 from one vehicle to the next, and the
      first beyond 11. */
  ghost predicate SpreadOut(ps: seq<Start>) {
    && (forall a :: 0 <= a < |ps| ==> ps[a].edge in {Left, Bottom} && ps[a].pos > 11.0)
    && (forall a, b :: 0 <= a < b < |ps| ==> ps[b].pos - ps[a].pos > 10.0)
  }

  ghost predicate CursorAhead(x: real, ps: seq<Start>) {
    x >= 1.0 && SpreadOut(ps) && forall a :: 0 <= a < |ps| ==> ps[a].pos <= x
  }

  /** The first scenario's loop returns exactly n positions, spread out,
      exactly when the stream has enough draws over 10. */
  lemma {:induction false} SpreadPlacesAll(x: real, ps: seq<Start>, draws: seq<Draw>, n: nat, vEnter: real)
    requires CursorAhead(x, ps) && |ps| <= n
    ensures Spread(x, ps, draws, n, vEnter).Some? <==> Accepted(draws, vEnter) >= n - |ps|
    ensures Spread(x, ps, draws, n, vEnter).Some? ==>
      |Spread(x, ps, draws, n, vEnter).value| == n && SpreadOut(Spread(x, ps, draws, n, vEnter).value)
    decreases |draws|
  {
    if |ps| < n && |draws| > 0 {
      var d := Increment(vEnter, draws[0]);
      if d > 10.0 {
        var ps' := ps + [Start(EntryEdge(draws[0].lane), x + d)];
        assert SpreadDraw(x, ps, draws[0], vEnter) == (x + d, ps');
        assert Accepted(draws, vEnter) == 1 + Accepted(draws[1..], vEnter);
        assert CursorAhead(x + d, ps') by {
          forall a, b | 0 <= a < b < |ps'| ensures ps'[b].pos - ps'[a].pos > 10.0 {
            if b == |ps| {
              assert ps'[a] == ps[a];
            } else {
              assert ps'[a] == ps[a] && ps'[b] == ps[b];
            }
          }
        }
        SpreadPlacesAll(x + d, ps', draws[1..], n, vEnter);
      } else {
        assert Accepted(draws, vEnter) == Accepted(draws[1..], vEnter);
        SpreadPlacesAll(x, ps, draws[1..], n, vEnter);
      }
    }
  }

  /** The first scenario's `gen_custom_start_pos`: the positions and, for
      each, lane 0. */
  function CustomStartPos(config: map<string, Param>, n: nat, draws: seq<Draw>): (r: Result<Option<Placement>>)
  {
    match Rates(config, n)
    case Err(e) => Err(e)
    case Ok(vEnter) =>
      match Spread(1.0, [], draws, n, vEnter)
      case None => Ok(None)
      case Some(ps) => Ok(Some(Placement(ps, seq(|ps|, _ => 0))))
  }

  /** The result has exactly n positions, all in lane 0, spread out along
      the shared cursor, whenever the stream has enough accepted draws. */
  lemma CustomStartPosShape(config: map<string, Param>, n: nat, draws: seq<Draw>)
    requires Rates(config, n).Ok?
    ensures CustomStartPos(config, n, draws).value.Some? <==> Accepted(draws, Rates(config, n).value) >= n
    ensures var r := CustomStartPos(config, n, draws).value;
      r.Some? ==> |r.value.positions| == |r.value.lanes| == n && SpreadOut(r.value.positions) &&
                  forall k :: 0 <= k < n ==> r.value.lanes[k] == 0
  {
    SpreadPlacesAll(1.0, [], draws, n, Rates(config, n).value);
  }

  method GenCustomStartPos(config: map<string, Param>, n: nat, draws: seq<Draw>) returns (r: Result<Option<Placement>>)
    ensures r == CustomStartPos(config, n, draws)
  {
    var rates := Rates(config, n);
    if rates.Err? {
      return Err(rates.error);
    }
    var vEnter := rates.value;
    var positions: seq<Start> := [];
    var x := 1.0;
    var i := 0;
    while |positions| < n && i < |draws|
      invariant 0 <= i <= |draws|
      invariant Spread(x, positions, draws[i..], n, vEnter) == Spread(1.0, [], draws, n, vEnter)
    {
      ghost var x0, ps0 := x, positions;
      var dInc := Increment(vEnter, draws[i]);
      if dInc > 10.0 {
        x := x + dInc;
        if draws[i].lane {
          positions := positions + [Start(Left, x)];
        } else {
          positions := positions + [Start(Bottom, x)];
        }
      }
      assert (x, positions) == SpreadDraw(x0, ps0, draws[i], vEnter);
      assert draws[i..][0] == draws[i] && draws[i..][1..] == draws[i + 1..];
      i := i + 1;
    }
    if |positions| < n {
      return Ok(None);
    }
    return Ok(Some(Placement(positions, seq(|positions|, _ => 0))));
  }

  // ---- the second scenario: one cursor per (edge, lane) ----

  /** The second scenario's loop state: the cursors and the two lists. */
  datatype Placing = Placing(x: map<(StartEdge, int), real>, positions: seq<Start>, lanes: seq<int>)

  /** A cursor of the second scenario; every cursor starts at 0. */
  function Cursor(x: map<(StartEdge, int), real>, e: StartEdge, lane: int): real {
    if (e, lane) in x then x[(e, lane)] else 0.0
  }

  function LaneIndex(b: bool): (l: int)
    ensures l == 0 || l == 1
  {
    if b then 1 else 0
  }

  /** One iteration: a draw whose increment exceeds 10 is placed after its
      (edge, lane) cursor when that stays inside the edge, and only then
      does that one cursor move; any other draw changes nothing. */
  function PlaceDraw(s: Placing, dr: Draw, vEnter: real): (r: Placing)
    ensures |r.positions| == |s.positions| ==> r == s
    ensures Increment(vEnter, dr) <= 10.0 || Cursor(s.x, dr.edge, LaneIndex(dr.lane)) + Increment(vEnter, dr) >= EdgeLength(dr.edge) ==>
      r == s
    ensures |r.positions| != |s.positions| ==>
      var lane := LaneIndex(dr.lane);
      var pos := Cursor(s.x, dr.edge, lane) + Increment(vEnter, dr);
      && Increment(vEnter, dr) > 10.0 && pos < EdgeLength(dr.edge)
      && r == Placing(s.x[(dr.edge, lane) := pos], s.positions + [Start(dr.edge, pos)], s.lanes + [lane])
  {
    var lane := LaneIndex(dr.lane);
    var d := Increment(vEnter, dr);
    var pos := Cursor(s.x, dr.edge, lane) + d;
    if d > 10.0 && pos < EdgeLength(dr.edge) then
      Placing(s.x[(dr.edge, lane) := pos], s.positions + [Start(dr.edge, pos)], s.lanes + [lane])
    else s
  }

  /** A draw whose increment exceeds 10 and whose position stays inside its
      edge is placed. */
  lemma PlaceDrawAccepts(s: Placing, dr: Draw, vEnter: real, pos: real)
    requires Increment(vEnter, dr) > 10.0 && pos == Cursor(s.x, dr.edge, LaneIndex(dr.lane)) + Increment(vEnter, dr)
    requires pos < EdgeLength(dr.edge)
    ensures PlaceDraw(s, dr, vEnter) ==
      Placing(s.x[(dr.edge, LaneIndex(dr.lane)) := pos], s.positions + [Start(dr.edge, pos)], s.lanes + [LaneIndex(dr.lane)])
  {
  }

  /** The second scenario's loop; None when the stream runs out first. */
  function Place(s: Placing, draws: seq<Draw>, n: nat, vEnter: real): Option<Placement>
    decreases |draws|
  {
    if |s.positions| >= n then Some(Placement(s.positions, s.lanes))
    else if |draws| == 0 then None
    else Place(PlaceDraw(s, draws[0], vEnter), draws[1..], n, vEnter)
  }

  /** What the second scenario's placements satisfy: one lane per
      position, lanes 0 or 1, each position beyond 10 and inside its edge,
      and positions on the same edge and lane more than 10 apart in the
      order placed. */
  ghost predicate WellPlaced(p: Placement) {
    && |p.positions| == |p.lanes|
    && (forall a :: 0 <= a < |p.lanes| ==> p.lanes[a] in {0, 1})
    && (forall a :: 0 <= a < |p.positions| ==> 10.0 < p.positions[a].pos < EdgeLength(p.positions[a].edge))
    && (forall a, b :: 0 <= a < b < |p.positions| && p.positions[a].edge == p.positions[b].edge && p.lanes[a] == p.lanes[b] ==>
          p.positions[b].pos - p.positions[a].pos > 10.0)
  }

  /** The placements are well placed, each cursor is non-negative, and it
      is at or beyond every position on its edge and lane. */
  ghost predicate CursorsAhead(s: Placing) {
    && WellPlaced(Placement(s.positions, s.lanes))
    && (forall k :: k in s.x ==> s.x[k] >= 0.0)
    && (forall a :: 0 <= a < |s.positions| ==> s.positions[a].pos <= Cursor(s.x, s.positions[a].edge, s.lanes[a]))
  }

  lemma PlaceDrawKeepsCursorsAhead(s: Placing, dr: Draw, vEnter: real)
    requires CursorsAhead(s)
    ensures CursorsAhead(PlaceDraw(s, dr, vEnter))
    ensures |PlaceDraw(s, dr, vEnter).positions| <= |s.positions| + 1
  {
    var r := PlaceDraw(s, dr, vEnter);
    if |r.positions| != |s.positions| {
      var lane := LaneIndex(dr.lane);
      var pos := Cursor(s.x, dr.edge, lane) + Increment(vEnter, dr);
      assert Cursor(s.x, dr.edge, lane) >= 0.0;
      assert forall a :: 0 <= a < |s.positions| ==> r.positions[a] == s.positions[a] && r.lanes[a] == s.lanes[a];
      forall a | 0 <= a < |r.positions| ensures r.positions[a].pos <= Cursor(r.x, r.positions[a].edge, r.lanes[a]) {
        if a < |s.positions| {
          assert s.positions[a].pos <= Cursor(s.x, s.positions[a].edge, s.lanes[a]);
        }
      }
      forall a, b | 0 <= a < b < |r.positions| && r.positions[a].edge == r.positions[b].edge && r.lanes[a] == r.lanes[b]
        ensures r.positions[b].pos - r.positions[a].pos > 10.0
      {
        if b == |s.positions| {
          assert r.positions[a].pos <= Cursor(s.x, dr.edge, lane);
        }
      }
    }
  }

  /** The second scenario's loop returns exactly n well-placed positions. */
  lemma {:induction false} PlacePlacesAll(s: Placing, draws: seq<Draw>, n: nat, vEnter: real)
    requires CursorsAhead(s) && |s.positions| <= n
    ensures var r := Place(s, draws, n, vEnter);
      r.Some? ==> |r.value.positions| == n && WellPlaced(r.value)
    decreases |draws|
  {
    if |s.positions| < n && |draws| > 0 {
      PlaceDrawKeepsCursorsAhead(s, draws[0], vEnter);
      PlacePlacesAll(PlaceDraw(s, draws[0], vEnter), draws[1..], n, vEnter);
    }
  }

  /** A 20-metre entry edge holds at most one vehicle per lane: a second
      one would have to start beyond 20. */
  lemma ShortEdgeHoldsOnePerLane(p: Placement, a: nat, b: nat)
    requires WellPlaced(p) && a < b < |p.positions|
    requires p.positions[a].edge == p.positions[b].edge && p.lanes[a] == p.lanes[b]
    ensures EdgeLength(p.positions[a].edge) == 1480.0
  {
    assert p.positions[b].pos - p.positions[a].pos > 10.0;
  }

  /** The second scenario's `gen_custom_start_pos`. */
  function MyCustomStartPos(config: map<string, Param>, n: nat, draws: seq<Draw>): Result<Option<Placement>> {
    match Rates(config, n)
    case Err(e) => Err(e)
    case Ok(vEnter) => Ok(Place(Placing(map[], [], []), draws, n, vEnter))
  }

  lemma MyCustomStartPosShape(config: map<string, Param>, n: nat, draws: seq<Draw>)
    requires MyCustomStartPos(config, n, draws).Ok?
    ensures var r := MyCustomStartPos(config, n, draws).value;
      r.Some? ==> |r.value.positions| == n && WellPlaced(r.value)
  {
    PlacePlacesAll(Placing(map[], [], []), draws, n, Rates(config, n).value);
  }

  method MyGenCustomStartPos(config: map<string, Param>, n: nat, draws: seq<Draw>) returns (r: Result<Option<Placement>>)
    ensures r == MyCustomStartPos(config, n, draws)
  {
    var rates := Rates(config, n);
    if rates.Err? {
      return Err(rates.error);
    }
    var vEnter := rates.value;
    var positions: seq<Start> := [];
    var lanes: seq<int> := [];
    var x: map<(StartEdge, int), real> := map[];
    var i := 0;
    while |positions| < n && i < |draws|
      invariant 0 <= i <= |draws|
      invariant Place(Placing(x, positions, lanes), draws[i..], n, vEnter) == Place(Placing(map[], [], []), draws, n, vEnter)
    {
      ghost var before := Placing(x, positions, lanes);
      var laneIx := LaneIndex(draws[i].lane);
      var dInc := Increment(vEnter, draws[i]);
      assert draws[i..][0] == draws[i] && draws[i..][1..] == draws[i + 1..];
      if dInc > 10.0 {
        var edge := draws[i].edge;
        var startPos := Cursor(x, edge, laneIx) + dInc;
        if startPos < EdgeLength(edge) {
          PlaceDrawAccepts(before, draws[i], vEnter, startPos);
          x := x[(edge, laneIx) := startPos];
          positions := positions + [Start(edge, startPos)];
          lanes := lanes + [laneIx];
        } else {
          assert before == PlaceDraw(before, draws[i], vEnter);
        }
      } else {
        assert before == PlaceDraw(before, draws[i], vEnter);
      }
      i := i + 1;
    }
    if |positions| < n {
      return Ok(None);
    }
    return Ok(Some(Placement(positions, lanes)));
  }

  /** With no vehicle to place the loops never run: both scenarios return
      empty lists once the two keys exist, whatever their values are. */
  lemma NoVehiclesNoChecks(config: map<string, Param>, draws: seq<Draw>)
    requires "intensity" in config && "enter_speed" in config
    ensures CustomStartPos(config, 0, draws) == Ok(Some(Placement([], [])))
    ensures MyCustomStartPos(config, 0, draws) == Ok(Some(Placement([], [])))
  {
    assert seq(0, _ => 0) == [];
  }
}
