/** The car-following controllers: CFM, BCM, OVM and linear OVM compute a
    raw acceleration from the vehicle's speed, headway and neighbours. Each
    passes it through a delay queue and clips the oldest queued value. IDM
    computes its acceleration directly. Vehicle readings come from the
    registry: a missing vehicle or field raises KeyError, and a value that
    is not a number raises TypeError. */
module CarFollowing {
  import opened Common
  import opened Registry

  /** Python's math.pi. */
  const Pi: real := 3.141592653589793

  /** The gain of the linear optimal-velocity function (Nakayama's average). */
  const LinearSlope: real := 1.689

  /** The floor IDM puts under the magnitude of the headway. */
  const MinHeadway: real := 0.001

  // ---------------------------------------------------------------------
  // Parameters and formulas
  // ---------------------------------------------------------------------

  /** Gains of the (bilateral) cooperative car-following models. */
  datatype Gains = Gains(kd: real, kv: real, kc: real, dDes: real, vDes: real, accelMax: real)

  /** Parameters of the optimal-velocity model. */
  datatype Ovm = Ovm(alpha: real, beta: real, hSt: real, hGo: real, vMax: real, accelMax: real, decelMax: real)

  /** Parameters of the linear optimal-velocity model. */
  datatype LinearOvm = LinearOvm(vMax: real, accelMax: real, decelMax: real, adaptation: real, hSt: real)

  /** The four delayed controllers. */
  datatype Model = Cfm(g: Gains) | Bcm(b: Gains) | OptimalVelocity(o: Ovm) | LinearOptimalVelocity(l: LinearOvm)

  /** CFM's raw acceleration: the headway error, the speed difference to
      the leader and the gap to the desired speed, each with its gain. */
  function CfmAccel(g: Gains, headway: real, leadVel: real, thisVel: real): real {
    g.kd * (headway - g.dDes) + g.kv * (leadVel - thisVel) + g.kc * (g.vDes - thisVel)
  }

  /** BCM's raw acceleration: headway minus the follower's headway, the
      speed difference to the leader less that to the follower, and the gap
      to the desired speed. */
  function BcmAccel(g: Gains, headway: real, footway: real, leadVel: real, thisVel: real, trailVel: real): real {
    g.kd * (headway - footway) + g.kv * ((leadVel - thisVel) - (thisVel - trailVel)) + g.kc * (g.vDes - thisVel)
  }

  /** OVM's optimal velocity for headway h: 0 up to h_st, v_max from h_go
      on, and a raised-cosine ramp between. */
  function OvmVelocity(o: Ovm, h: real, ops: RealOps): (vh: real)
    ensures h <= o.hSt ==> vh == 0.0
    ensures h > o.hSt && h >= o.hGo ==> vh == o.vMax
    ensures Lawful(ops) && o.vMax >= 0.0 ==> 0.0 <= vh <= o.vMax
  {
    if h <= o.hSt then 0.0
    else if o.hSt < h < o.hGo then
      var c := ops.cos(RampAngle(o, h));
      var ramp := o.vMax / 2.0 * (1.0 - c);
      assert Lawful(ops) ==> -1.0 <= c <= 1.0;
      HalfScaled(o.vMax, c, ramp);
      ramp
    else o.vMax
  }

  /** The cosine's argument, pi (h - h_st) / (h_go - h_st). */
  function RampAngle(o: Ovm, h: real): real
    requires o.hSt < h < o.hGo
  {
    Pi * (h - o.hSt) / (o.hGo - o.hSt)
  }

  lemma HalfScaled(k: real, c: real, x: real)
    requires x == k / 2.0 * (1.0 - c)
    ensures k >= 0.0 && -1.0 <= c <= 1.0 ==> 0.0 <= x <= k
  {
    if k >= 0.0 && -1.0 <= c <= 1.0 {
      assert x <= k / 2.0 * 2.0;
    }
  }

  function OvmAccel(o: Ovm, h: real, leadVel: real, thisVel: real, ops: RealOps): real {
    o.alpha * (OvmVelocity(o, h, ops) - thisVel) + o.beta * (leadVel - thisVel)
  }

  /** The linear optimal velocity: 0 below h_st, rising with slope 1.689
      until it reaches v_max, v_max above. */
  function LinearVelocity(l: LinearOvm, h: real): (vh: real)
    ensures h < l.hSt ==> vh == 0.0
    ensures h >= l.hSt && h > l.hSt + l.vMax / LinearSlope ==> vh == l.vMax
    ensures l.vMax >= 0.0 ==> 0.0 <= vh <= l.vMax
  {
    if h < l.hSt then 0.0
    else if l.hSt <= h <= l.hSt + l.vMax / LinearSlope then LinearSlope * (h - l.hSt)
    else l.vMax
  }

  /** The linear OVM's raw acceleration, which divides by the adaptation
      constant. */
  function LinearAccel(l: LinearOvm, h: real, thisVel: real): (r: Result<real>)
    ensures r.Ok? <==> l.adaptation != 0.0
    ensures r.Ok? ==> r.value * l.adaptation == LinearVelocity(l, h) - thisVel
  {
    if l.adaptation == 0.0 then Err(ZeroDivisionError)
    else Ok((LinearVelocity(l, h) - thisVel) / l.adaptation)
  }

  function AccelMax(m: Model): real {
    match m
    case Cfm(g) => g.accelMax
    case Bcm(g) => g.accelMax
    case OptimalVelocity(o) => o.accelMax
    case LinearOptimalVelocity(l) => l.accelMax
  }

  /** The final clip: CFM and BCM cap at accel_max; the OVMs also floor
      at -|decel_max|. */
  function Clamp(m: Model, x: real): (r: real)
    ensures r <= AccelMax(m) || (m.OptimalVelocity? && r == -Abs(m.o.decelMax)) ||
            (m.LinearOptimalVelocity? && r == -Abs(m.l.decelMax))
    ensures (m.Cfm? || m.Bcm?) ==> r == Min(x, AccelMax(m))
    ensures m.OptimalVelocity? ==> -Abs(m.o.decelMax) <= r && (-Abs(m.o.decelMax) <= AccelMax(m) ==> r <= AccelMax(m))
    ensures m.LinearOptimalVelocity? ==> -Abs(m.l.decelMax) <= r && (-Abs(m.l.decelMax) <= AccelMax(m) ==> r <= AccelMax(m))
    ensures (x <= AccelMax(m) && (m.OptimalVelocity? ==> -Abs(m.o.decelMax) <= x) &&
             (m.LinearOptimalVelocity? ==> -Abs(m.l.decelMax) <= x)) ==> r == x
  {
    match m
    case Cfm(g) => Min(x, g.accelMax)
    case Bcm(g) => Min(x, g.accelMax)
    case OptimalVelocity(o) => Max(Min(x, o.accelMax), -Abs(o.decelMax))
    case LinearOptimalVelocity(l) => Max(Min(x, l.accelMax), -Abs(l.decelMax))
  }

  // ---------------------------------------------------------------------
  // Reading the registry
  // ---------------------------------------------------------------------

  /** The leader as IDM tests it (`lead_id is None or lead_id == ''`): None
      and the empty string are no car ahead. Any other entry that is not a
      string names no vehicle, and `get_speed` of it is a KeyError. */
  function LeaderId(vehicles: Vehicles, v: string): (r: Result<Option<string>>)
    reads vehicles
    ensures r.Ok? && r.value.Some? ==> r.value.value != ""
    ensures r == Ok(None) <==> vehicles.Field(v, "leader") in {Ok(Nothing), Ok(Text(""))}
  {
    match vehicles.Field(v, "leader")
    case Err(e) => Err(e)
    case Ok(x) =>
      if x == Nothing || x == Text("") then Ok(None)
      else if x.Text? then Ok(Some(x.s))
      else Err(KeyError("leader"))
  }

  /** Python's falsiness on a stored value: None, the empty string, a zero
      number and the empty list are false; any object is true. */
  predicate Falsy(x: Value) {
    x == Nothing || x == Text("") || x == Num(0.0) || x == Int(0) || x == Edges([])
  }

  /** The leader read by CFM, BCM and OVM, whose `if not lead_id` takes
      every falsy value as no car ahead. A true value that is not a string
      names no vehicle, and `get_speed` of it is a KeyError. */
  function CarAhead(vehicles: Vehicles, v: string): (r: Result<Option<string>>)
    reads vehicles
    ensures r == Ok(None) <==> vehicles.Field(v, "leader").Ok? && Falsy(vehicles.Field(v, "leader").value)
    ensures r.Ok? && r.value.Some? ==> vehicles.Field(v, "leader") == Ok(Text(r.value.value)) && r.value.value != ""
    ensures vehicles.Field(v, "leader").Err? ==> r == Err(vehicles.Field(v, "leader").error)
  {
    match vehicles.Field(v, "leader")
    case Err(e) => Err(e)
    case Ok(x) =>
      if Falsy(x) then Ok(None)
      else if x.Text? then Ok(Some(x.s))
      else Err(KeyError("leader"))
  }

  /** The two no-car-ahead tests agree on every leader a string or None,
      which is all the environments store; a stored 0 is where they part:
      CFM, BCM and OVM see no car ahead, IDM looks the 0 up and fails. */
  lemma CarAheadAgreesOnIds(vehicles: Vehicles, v: string)
    ensures vehicles.Field(v, "leader").Ok? && (vehicles.Field(v, "leader").value.Text? || vehicles.Field(v, "leader").value == Nothing) ==>
      CarAhead(vehicles, v) == LeaderId(vehicles, v)
    ensures vehicles.Field(v, "leader") == Ok(Int(0)) ==>
      CarAhead(vehicles, v) == Ok(None) && LeaderId(vehicles, v).Err? && LeaderId(vehicles, v).error.KeyError?
  {
  }

  /** The follower id: `get_speed` of anything but a string raises KeyError. */
  function FollowerId(vehicles: Vehicles, v: string): (r: Result<string>)
    reads vehicles
    ensures r.Ok? ==> vehicles.Field(v, "follower") == Ok(Text(r.value))
  {
    match vehicles.Field(v, "follower")
    case Err(e) => Err(e)
    case Ok(x) => if x.Text? then Ok(x.s) else Err(KeyError("None"))
  }

  /** CFM's readings, in the order the code makes them: the leader, its
      speed, the own speed and the headway. None means no car ahead. */
  function CfmRaw(g: Gains, vehicles: Vehicles, v: string): Result<Option<real>>
    reads vehicles
  {
    match CarAhead(vehicles, v)
    case Err(e) => Err(e)
    case Ok(None) => Ok(None)
    case Ok(Some(lead)) =>
      match vehicles.Number(lead, "speed")
      case Err(e) => Err(e)
      case Ok(leadVel) =>
        match vehicles.Number(v, "speed")
        case Err(e) => Err(e)
        case Ok(thisVel) =>
          match vehicles.Number(v, "headway")
          case Err(e) => Err(e)
          case Ok(h) => Ok(Some(CfmAccel(g, h, leadVel, thisVel)))
  }

  /** BCM's readings: the leader and its speed, the own speed, the follower
      and its speed, then the own and the follower's headway. */
  function BcmRaw(g: Gains, vehicles: Vehicles, v: string): Result<Option<real>>
    reads vehicles
  {
    match CarAhead(vehicles, v)
    case Err(e) => Err(e)
    case Ok(None) => Ok(None)
    case Ok(Some(lead)) =>
      match vehicles.Number(lead, "speed")
      case Err(e) => Err(e)
      case Ok(leadVel) =>
        match vehicles.Number(v, "speed")
        case Err(e) => Err(e)
        case Ok(thisVel) =>
          match FollowerId(vehicles, v)
          case Err(e) => Err(e)
          case Ok(trail) =>
            match vehicles.Number(trail, "speed")
            case Err(e) => Err(e)
            case Ok(trailVel) =>
              match vehicles.Number(v, "headway")
              case Err(e) => Err(e)
              case Ok(h) =>
                match vehicles.Number(trail, "headway")
                case Err(e) => Err(e)
                case Ok(f) => Ok(Some(BcmAccel(g, h, f, leadVel, thisVel, trailVel)))
  }

  /** OVM's readings: the leader, its speed, the own speed and the headway. */
  function OvmRaw(o: Ovm, vehicles: Vehicles, v: string, ops: RealOps): Result<Option<real>>
    reads vehicles
  {
    match CarAhead(vehicles, v)
    case Err(e) => Err(e)
    case Ok(None) => Ok(None)
    case Ok(Some(lead)) =>
      match vehicles.Number(lead, "speed")
      case Err(e) => Err(e)
      case Ok(leadVel) =>
        match vehicles.Number(v, "speed")
        case Err(e) => Err(e)
        case Ok(thisVel) =>
          match vehicles.Number(v, "headway")
          case Err(e) => Err(e)
          case Ok(h) => Ok(Some(OvmAccel(o, h, leadVel, thisVel, ops)))
  }

  /** The linear OVM reads only the own speed and headway; it has no
      no-leader shortcut. */
  function LinearRaw(l: LinearOvm, vehicles: Vehicles, v: string): Result<Option<real>>
    reads vehicles
  {
    match vehicles.Number(v, "speed")
    case Err(e) => Err(e)
    case Ok(thisVel) =>
      match vehicles.Number(v, "headway")
      case Err(e) => Err(e)
      case Ok(h) =>
        match LinearAccel(l, h, thisVel)
        case Err(e) => Err(e)
        case Ok(acc) => Ok(Some(acc))
  }

  /** The raw acceleration of a model, or None for a car with no leader. */
  function RawAccel(m: Model, vehicles: Vehicles, v: string, ops: RealOps): (r: Result<Option<real>>)
    reads vehicles
    ensures m.LinearOptimalVelocity? ==> r != Ok(None)
    ensures !m.LinearOptimalVelocity? ==> (r == Ok(None) <==> CarAhead(vehicles, v) == Ok(None))
  {
    match m
    case Cfm(g) => CfmRaw(g, vehicles, v)
    case Bcm(g) => BcmRaw(g, vehicles, v)
    case OptimalVelocity(o) => OvmRaw(o, vehicles, v, ops)
    case LinearOptimalVelocity(l) => LinearRaw(l, vehicles, v)
  }

  // ---------------------------------------------------------------------
  // The delay queue
  // ---------------------------------------------------------------------

  /** The filling loop: `appendleft(acc)` while the queue holds no more than
      `delay` values. Index 0 is the left end. It stops with one more value
      than the whole part of the delay, or at once when the queue is
      already longer than the delay. */
  function Fill(q: seq<real>, acc: real, delay: real): (r: seq<real>)
    ensures |r| as real > delay
    ensures |q| as real > delay ==> r == q
    ensures |q| as real <= delay ==> |r| == delay.Floor + 1 && r == seq(|r| - |q|, _ => acc) + q
    decreases delay.Floor + 1 - |q|
  {
    if |q| as real <= delay then Fill([acc] + q, acc, delay) else q
  }

  /** The value `pop` takes from the right end and the queue it leaves;
      popping an empty deque raises IndexError. */
  datatype Popped = Popped(out: Result<real>, queue: seq<real>)

  /** Fill, then pop the oldest value. */
  function QueueStep(q: seq<real>, acc: real, delay: real): (p: Popped)
    ensures delay >= 0.0 ==> p.out.Ok?
    ensures p.out.Ok? ==> |p.queue| as real <= delay || |q| as real > delay + 1.0
    ensures |q| as real <= delay && delay >= 0.0 ==> |p.queue| == delay.Floor
  {
    var f := Fill(q, acc, delay);
    if |f| == 0 then Popped(Err(IndexError), f)
    else Popped(Ok(f[|f| - 1]), f[..|f| - 1])
  }

  /** The outputs and the final queue of a run of `get_accel` calls from an
      empty queue, one raw acceleration per call. */
  datatype Trace = Trace(outs: seq<real>, queue: seq<real>)

  function Run(accs: seq<real>, delay: real): (t: Trace)
    requires delay >= 0.0
    ensures |t.outs| == |accs|
  {
    if |accs| == 0 then Trace([], [])
    else
      var t := Run(accs[..|accs| - 1], delay);
      var p := QueueStep(t.queue, accs[|accs| - 1], delay);
      Trace(t.outs + [p.out.value], p.queue)
  }

  function Max0(n: int): nat {
    if n < 0 then 0 else n
  }

  /** After the calls with raw values `accs`, the trace shows a delay of
      d calls: output k is value k - d (or the first), and the queue holds
      the last d values, newest first. */
  ghost predicate DelayedBy(accs: seq<real>, t: Trace, d: nat) {
    && |t.outs| == |accs|
    && (forall k :: 0 <= k < |accs| ==> t.outs[k] == accs[Max0(k - d)])
    && (|accs| == 0 ==> t.queue == [])
    && (|accs| > 0 ==> |t.queue| == d && forall j :: 0 <= j < d ==> t.queue[j] == accs[Max0(|accs| - 1 - j)])
  }

  /** One more call appends the popped value and keeps the popped queue. */
  lemma RunLast(accs: seq<real>, a: real, delay: real)
    requires delay >= 0.0
    ensures var t := Run(accs, delay);
      var p := QueueStep(t.queue, a, delay);
      Run(accs + [a], delay) == Trace(t.outs + [p.out.value], p.queue)
  {
    assert (accs + [a])[..|accs|] == accs;
  }

  /** The queue part of one call: a window of the last d values stays one. */
  lemma QueueWindowStep(accs: seq<real>, q: seq<real>, a: real, delay: real)
    requires delay >= 0.0
    requires |accs| == 0 ==> q == []
    requires |accs| > 0 ==> |q| == delay.Floor && forall j :: 0 <= j < |q| ==> q[j] == accs[Max0(|accs| - 1 - j)]
    ensures var p := QueueStep(q, a, delay);
      var accs' := accs + [a];
      && |p.queue| == delay.Floor
      && (forall j :: 0 <= j < |p.queue| ==> p.queue[j] == accs'[Max0(|accs'| - 1 - j)])
      && p.out.value == accs'[Max0(|accs| - delay.Floor)]
  {
    var d := delay.Floor;
    var accs' := accs + [a];
    var f := Fill(q, a, delay);
    var p := QueueStep(q, a, delay);
    assert p.queue == f[..d] && p.out.value == f[d];
    if |accs| == 0 {
      assert f == seq(d + 1, _ => a);
    } else {
      assert f == [a] + q;
      forall j | 0 <= j < d ensures p.queue[j] == accs'[Max0(|accs'| - 1 - j)] {
        if j > 0 {
          assert p.queue[j] == q[j - 1];
        }
      }
      if d > 0 {
        assert f[d] == q[d - 1];
      }
    }
  }

  lemma DelayStep(accs: seq<real>, a: real, delay: real)
    requires delay >= 0.0 && DelayedBy(accs, Run(accs, delay), delay.Floor)
    ensures DelayedBy(accs + [a], Run(accs + [a], delay), delay.Floor)
  {
    var accs' := accs + [a];
    var d := delay.Floor;
    var t := Run(accs, delay);
    RunLast(accs, a, delay);
    QueueWindowStep(accs, t.queue, a, delay);
    var r := Run(accs', delay);
    forall k | 0 <= k < |accs'| ensures r.outs[k] == accs'[Max0(k - d)] {
      if k < |accs| {
        assert r.outs[k] == t.outs[k];
      }
    }
  }

  /** The queue delays by the whole part D of `delay`: call k returns the
      raw acceleration of call k - D, or of the first call while fewer than
      D calls have gone by, and the queue then holds the last D values,
      newest first. With D = 0 each call returns its own value. */
  lemma {:induction false} DelayedByWholePart(accs: seq<real>, delay: real)
    requires delay >= 0.0
    ensures var t := Run(accs, delay);
      forall k :: 0 <= k < |accs| ==> t.outs[k] == accs[Max0(k - delay.Floor)]
    ensures var t := Run(accs, delay);
      |accs| > 0 ==> |t.queue| == delay.Floor && forall j :: 0 <= j < |t.queue| ==> t.queue[j] == accs[Max0(|accs| - 1 - j)]
    ensures |accs| == 0 ==> Run(accs, delay).queue == []
    decreases |accs|
  {
    if |accs| > 0 {
      var init := accs[..|accs| - 1];
      assert accs == init + [accs[|accs| - 1]];
      DelayedByWholePart(init, delay);
      DelayStep(init, accs[|accs| - 1], delay);
    }
  }

  /** A single call with a queue of at most `delay` values adds exactly the
      new value at the left and returns the rightmost one. */
  lemma QueueIsFifo(q: seq<real>, acc: real, delay: real)
    requires |q| > 0 && |q| as real <= delay < (|q| + 1) as real
    ensures QueueStep(q, acc, delay) == Popped(Ok(q[|q| - 1]), [acc] + q[..|q| - 1])
  {
    var f := Fill(q, acc, delay);
    assert f == [acc] + q;
    assert f[..|f| - 1] == [acc] + q[..|q| - 1];
  }

  // ---------------------------------------------------------------------
  // get_accel of the delayed controllers
  // ---------------------------------------------------------------------

  /** One `get_accel` call: no car ahead returns accel_max and leaves the
      queue alone; otherwise the raw value is queued and the oldest value is
      popped and clipped. */
  function Call(m: Model, delay: real, vehicles: Vehicles, v: string, q: seq<real>, ops: RealOps): (p: Popped)
    reads vehicles
    ensures RawAccel(m, vehicles, v, ops) == Ok(None) ==> p == Popped(Ok(AccelMax(m)), q)
    ensures RawAccel(m, vehicles, v, ops).Err? ==> p == Popped(Err(RawAccel(m, vehicles, v, ops).error), q)
    ensures RawAccel(m, vehicles, v, ops).Ok? && delay >= 0.0 ==> p.out.Ok?
    ensures RawAccel(m, vehicles, v, ops).Ok? && |q| as real <= delay ==> |p.queue| as real <= delay
    ensures p.out.Ok? && RawAccel(m, vehicles, v, ops) != Ok(None) && m.OptimalVelocity? ==> -Abs(m.o.decelMax) <= p.out.value
    ensures p.out.Ok? && m.LinearOptimalVelocity? ==> -Abs(m.l.decelMax) <= p.out.value
    ensures p.out.Ok? && (m.Cfm? || m.Bcm? || -Abs(DecelMax(m)) <= AccelMax(m)) ==> p.out.value <= AccelMax(m)
  {
    match RawAccel(m, vehicles, v, ops)
    case Err(e) => Popped(Err(e), q)
    case Ok(None) => Popped(Ok(AccelMax(m)), q)
    case Ok(Some(acc)) =>
      var s := QueueStep(q, acc, delay);
      if s.out.Err? then s else Popped(Ok(Clamp(m, s.out.value)), s.queue)
  }

  function DecelMax(m: Model): real {
    match m
    case Cfm(_) => 0.0
    case Bcm(_) => 0.0
    case OptimalVelocity(o) => o.decelMax
    case LinearOptimalVelocity(l) => l.decelMax
  }

  /** With `tau` = 0 the delay is 0 and a call from an empty queue returns
      its own clipped raw value and leaves the queue empty. */
  lemma ZeroDelayPassesThrough(m: Model, vehicles: Vehicles, v: string, ops: RealOps, acc: real)
    requires RawAccel(m, vehicles, v, ops) == Ok(Some(acc))
    ensures Call(m, 0.0, vehicles, v, [], ops) == Popped(Ok(Clamp(m, acc)), [])
  {
    assert Fill([], acc, 0.0) == [acc];
  }

  /** `tau / dt`, which every controller's constructor computes for its
      "delay" parameter: a zero time step is a ZeroDivisionError, any other
      gives the delay that many steps of dt make up tau. */
  function ControllerDelay(tau: real, dt: real): (r: Result<real>)
    ensures r.Ok? <==> dt != 0.0
    ensures r.Err? ==> r.error == ZeroDivisionError
    ensures r.Ok? ==> r.value * dt == tau
  {
    if dt == 0.0 then Err(ZeroDivisionError) else Ok(tau / dt)
  }

  /** A delayed controller of one vehicle with its queue of accelerations. */
  class DelayedController {
    const vehId: string
    const model: Model
    const delay: real
    var queue: seq<real>

    /** A new controller with an empty queue and delay tau / dt; a zero dt
        is the error ControllerDelay reports, before any object exists. */
    constructor (vehId: string, model: Model, tau: real, dt: real)
      requires ControllerDelay(tau, dt).Ok?
      ensures this.vehId == vehId && this.model == model && delay == ControllerDelay(tau, dt).value && queue == []
    {
      this.vehId := vehId;
      this.model := model;
      delay := ControllerDelay(tau, dt).value;
      queue := [];
    }

    /** `get_accel`, updating the queue in place. */
    method GetAccel(vehicles: Vehicles, ops: RealOps) returns (r: Result<real>)
      modifies this`queue
      ensures Call(model, delay, vehicles, vehId, old(queue), ops) == Popped(r, queue)
    {
      var raw := RawAccel(model, vehicles, vehId, ops);
      if raw.Err? {
        return Err(raw.error);
      }
      if raw.value.None? {
        return Ok(AccelMax(model));
      }
      var acc := raw.value.value;
      ghost var q0 := queue;
      while |queue| as real <= delay
        invariant Fill(queue, acc, delay) == Fill(q0, acc, delay)
        decreases delay.Floor + 1 - |queue|
      {
        queue := [acc] + queue;
      }
      if |queue| == 0 {
        return Err(IndexError);
      }
      var oldest := queue[|queue| - 1];
      queue := queue[..|queue| - 1];
      return Ok(Clamp(model, oldest));
    }

    /** `reset_delay`: the queue is emptied. */
    method ResetDelay()
      modifies this`queue
      ensures queue == []
    {
      queue := [];
    }
  }

  // ---------------------------------------------------------------------
  // The expected values of the controller tests: five vehicles on a ring,
  // each led by the next, with delay 0
  // ---------------------------------------------------------------------

  const TestHeadways: seq<real> := [5.0, 10.0, 15.0, 20.0, 25.0]
  const TestSpeeds: seq<real> := [5.0, 10.0, 5.0, 10.0, 5.0]

  /** CFM with unit gains, d_des 1, v_des 8 and accel_max 20 gives
      12, 2, 20, 12, 20. */
  lemma CfmTestValues()
    ensures var g := Gains(1.0, 1.0, 1.0, 1.0, 8.0, 20.0);
      forall i :: 0 <= i < 5 ==>
        Clamp(Cfm(g), CfmAccel(g, TestHeadways[i], TestSpeeds[(i + 1) % 5], TestSpeeds[i])) ==
        [12.0, 2.0, 20.0, 12.0, 20.0][i]
  {
  }

  /** BCM with the same gains and accel_max 15, each vehicle followed by the
      previous one, gives -12, -7, 15, -7, 13. */
  lemma BcmTestValues()
    ensures var g := Gains(1.0, 1.0, 1.0, 1.0, 8.0, 15.0);
      forall i :: 0 <= i < 5 ==>
        Clamp(Bcm(g), BcmAccel(g, TestHeadways[i], TestHeadways[(i + 4) % 5], TestSpeeds[(i + 1) % 5], TestSpeeds[i],
                               TestSpeeds[(i + 4) % 5])) ==
        [-12.0, -7.0, 15.0, -7.0, 13.0][i]
  {
  }

  /** The linear OVM with v_max 30, accel_max 15, decel_max -5, adaptation
      0.65 and h_st 5, at headways 5, 10, 10, 15, 0, gives -5, -1.555/0.65
      (about -2.392308), 5.3, 10.6, -5. */
  lemma LinearOvmTestValues()
    ensures var l := LinearOvm(30.0, 15.0, -5.0, 0.65, 5.0);
      var hs := [5.0, 10.0, 10.0, 15.0, 0.0];
      forall i :: 0 <= i < 5 ==>
        LinearAccel(l, hs[i], TestSpeeds[i]).Ok? &&
        Clamp(LinearOptimalVelocity(l), LinearAccel(l, hs[i], TestSpeeds[i]).value) ==
        [-5.0, -1.555 / 0.65, 5.3, 10.6, -5.0][i]
  {
  }

  /** OVM with headway 0 at or below h_st: the optimal velocity is 0, so a
      vehicle at 5 behind a leader at 10 gets 0, whatever cos is. */
  lemma OvmTestStopped(ops: RealOps)
    ensures var o := Ovm(1.0, 1.0, 2.0, 15.0, 30.0, 15.0, -5.0);
      Clamp(OptimalVelocity(o), OvmAccel(o, 0.0, 10.0, 5.0, ops)) == 0.0
  {
  }

  // ---------------------------------------------------------------------
  // IDM
  // ---------------------------------------------------------------------

  datatype Idm = Idm(v0: real, t: real, a: real, b: real, delta: real, s0: real, s1: real, decelMax: real)

  /** Headways of magnitude below 1e-3 become 1e-3; negative headways of
      larger magnitude are kept. The result is never 0. */
  function IdmHeadway(h: real): (r: real)
    ensures Abs(r) >= MinHeadway
    ensures Abs(h) < MinHeadway ==> r == MinHeadway
    ensures Abs(h) >= MinHeadway ==> r == h
  {
    if Abs(h) < MinHeadway then MinHeadway else h
  }

  /** The desired gap: 0 with no car ahead, otherwise s0 plus the
      non-negative dynamic part. It divides by 2 sqrt(a b): numpy would give
      inf or nan where the model raises ZeroDivisionError or a math domain
      error. */
  function DesiredGap(p: Idm, thisVel: real, leadVel: Option<real>, ops: RealOps): (r: Result<real>)
    ensures leadVel.None? ==> r == Ok(0.0)
    ensures leadVel.Some? && r.Ok? ==> r.value >= p.s0
    ensures Lawful(ops) && p.a * p.b > 0.0 ==> r.Ok?
  {
    match leadVel
    case None => Ok(0.0)
    case Some(lv) =>
      if p.a * p.b < 0.0 then Err(MathDomainError)
      else
        var root := ops.sqrt(p.a * p.b);
        assert Lawful(ops) && p.a * p.b > 0.0 ==> root * root == p.a * p.b;
        if root == 0.0 then Err(ZeroDivisionError)
        else
          Ok(p.s0 + Max(0.0, thisVel * p.t + thisVel * (thisVel - lv) / (2.0 * root)))
  }

  /** IDM's acceleration a (1 - (v / v0)^delta - (s* / h)^2). It reads the
      own speed, the leader and the headway, then the leader's speed.
      v0 = 0 raises ZeroDivisionError; the headway never does. */
  function IdmAccel(p: Idm, vehicles: Vehicles, v: string, ops: RealOps): (r: Result<real>)
    reads vehicles
    ensures r.Ok? ==> p.v0 != 0.0
    ensures r.Ok? && vehicles.Number(v, "speed").Ok? && LeaderId(vehicles, v) == Ok(None) ==>
      r.value == p.a * (1.0 - ops.pow(vehicles.Number(v, "speed").value / p.v0, p.delta))
  {
    match vehicles.Number(v, "speed")
    case Err(e) => Err(e)
    case Ok(thisVel) =>
      match LeaderId(vehicles, v)
      case Err(e) => Err(e)
      case Ok(lead) =>
        match vehicles.Number(v, "headway")
        case Err(e) => Err(e)
        case Ok(h0) =>
          var h := IdmHeadway(h0);
          var leadVel := if lead.None? then Ok(None) else
            (match vehicles.Number(lead.value, "speed")
             case Err(e) => Err(e)
             case Ok(lv) => Ok(Some(lv)));
          if leadVel.Err? then Err(leadVel.error)
          else match DesiredGap(p, thisVel, leadVel.value, ops)
            case Err(e) => Err(e)
            case Ok(sStar) =>
              if p.v0 == 0.0 then Err(ZeroDivisionError)
              else Ok(p.a * (1.0 - ops.pow(thisVel / p.v0, p.delta) - (sStar / h) * (sStar / h)))
  }

  /** The interaction term only brakes: subtracting (s / h)^2 never raises
      a (free - ...) for a >= 0, and lowers it strictly when a and s are
      positive. */
  lemma BrakingLowers(a: real, free: real, s: real, h: real, x: real)
    requires h != 0.0 && x == a * (free - (s / h) * (s / h))
    ensures a >= 0.0 ==> x <= a * free
    ensures a > 0.0 && s != 0.0 ==> x < a * free
  {
    var q := s / h;
    assert x == a * free - a * (q * q);
    if s != 0.0 {
      assert q != 0.0;
      assert q * q > 0.0;
    }
  }

  /** With a car ahead the interaction term only brakes: for a >= 0 the
      result is at most the free-road value a (1 - (v / v0)^delta), and with
      a and s0 positive strictly below it. */
  lemma IdmLeaderBrakes(p: Idm, vehicles: Vehicles, v: string, ops: RealOps)
    requires IdmAccel(p, vehicles, v, ops).Ok?
    requires vehicles.Number(v, "speed").Ok? && LeaderId(vehicles, v).Ok? && LeaderId(vehicles, v).value.Some?
    ensures p.a >= 0.0 ==>
      IdmAccel(p, vehicles, v, ops).value <= p.a * (1.0 - ops.pow(vehicles.Number(v, "speed").value / p.v0, p.delta))
    ensures p.a > 0.0 && p.s0 > 0.0 ==>
      IdmAccel(p, vehicles, v, ops).value < p.a * (1.0 - ops.pow(vehicles.Number(v, "speed").value / p.v0, p.delta))
  {
    var thisVel := vehicles.Number(v, "speed").value;
    var lead := LeaderId(vehicles, v).value.value;
    var h := IdmHeadway(vehicles.Number(v, "headway").value);
    var gap := DesiredGap(p, thisVel, Some(vehicles.Number(lead, "speed").value), ops);
    assert gap.Ok? && gap.value >= p.s0;
    var free := 1.0 - ops.pow(thisVel / p.v0, p.delta);
    BrakingLowers(p.a, free, gap.value, h, IdmAccel(p, vehicles, v, ops).value);
  }

  /** A zero (or tiny) headway never makes IDM fail: when the readings
      exist, the model's parameters are usable and sqrt is lawful, the
      result is a number. */
  lemma IdmHeadwayNeverDivides(p: Idm, vehicles: Vehicles, v: string, ops: RealOps)
    requires Lawful(ops) && p.a * p.b > 0.0 && p.v0 != 0.0
    requires vehicles.Number(v, "speed").Ok? && vehicles.Number(v, "headway").Ok? && LeaderId(vehicles, v).Ok?
    requires LeaderId(vehicles, v).value.Some? ==> vehicles.Number(LeaderId(vehicles, v).value.value, "speed").Ok?
    ensures IdmAccel(p, vehicles, v, ops).Ok?
  {
  }
}
