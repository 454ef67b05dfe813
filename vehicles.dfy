/** The vehicle registry (flow/core/vehicles.py): the id lists by control
    kind, one record of named fields per vehicle, and the counters kept
    beside them. */
module Registry {
  import opened Common

  /** The class of an acceleration controller, as `add_vehicles` tells them apart. */
  datatype ControllerClass = SumoController | RLController | FlowController(name: string)

  /** A value held in one field of a vehicle's record. Controllers are kept
      as the class they were built from and the vehicle they were built for. */
  datatype Value =
    | Num(x: real)
    | Int(i: int)
    | Text(s: string)
    | Edges(route: seq<string>)
    | Nothing
    | AccController(cls: ControllerClass, owner: string)
    | LaneChanger(name: string, owner: string)
    | Router(name: string, owner: string)

  type Record = map<string, Value>

  /** The `veh_id` argument of the getters: one id (where "all" means every
      id, in id-list order) or a list of ids. */
  datatype Query = One(id: string) | Many(ids: seq<string>)

  datatype Answer = Single(value: Value) | Values(values: seq<Value>)

  /** `base + '_%d' % i`. */
  function VehicleName(base: string, i: nat): string {
    base + "_" + NatToString(i)
  }

  /** The ids `add_vehicles(base, ..., num_vehicles=n)` creates, in order;
      `range(n)` is empty for n <= 0. */
  function NewIds(base: string, n: int): (r: seq<string>)
    ensures |r| == (if n > 0 then n else 0)
    decreases if n > 0 then n else 0
  {
    if n <= 0 then [] else NewIds(base, n - 1) + [VehicleName(base, n - 1)]
  }

  /** The i-th new id is base_i. */
  lemma {:induction false} NewIdsAt(base: string, n: int, i: nat)
    requires i < n
    ensures NewIds(base, n)[i] == VehicleName(base, i)
    decreases n
  {
    if i < n - 1 {
      NewIdsAt(base, n - 1, i);
    }
  }

  /** The record `add_vehicles` builds for the vehicle `vehId` of type `base`. */
  function NewRecord(base: string, vehId: string, acc: ControllerClass, laneChanger: Option<string>,
                     router: Option<string>, initialSpeed: real): Record
  {
    map["type" := Text(base),
        "acc_controller" := AccController(acc, vehId),
        "lane_changer" := (match laneChanger case Some(c) => LaneChanger(c, vehId) case None => Nothing),
        "router" := (match router case Some(c) => Router(c, vehId) case None => Nothing),
        "initial_speed" := Num(initialSpeed)]
  }

  /** `records` after the records for the ids in `newIds` are stored, in
      order; a repeated id ends with the record stored last. */
  function AddRecords(records: map<string, Record>, base: string, newIds: seq<string>, acc: ControllerClass,
                      laneChanger: Option<string>, router: Option<string>, initialSpeed: real): map<string, Record>
    decreases |newIds|
  {
    if |newIds| == 0 then records
    else
      var last := newIds[|newIds| - 1];
      AddRecords(records, base, newIds[..|newIds| - 1], acc, laneChanger, router, initialSpeed)
        [last := NewRecord(base, last, acc, laneChanger, router, initialSpeed)]
  }

  /** One more pass of the loop of `add_vehicles` appends base_i and stores its record. */
  lemma AddRecordsNext(records: map<string, Record>, base: string, i: nat, acc: ControllerClass,
                       laneChanger: Option<string>, router: Option<string>, initialSpeed: real)
    ensures NewIds(base, i + 1) == NewIds(base, i) + [VehicleName(base, i)]
    ensures AddRecords(records, base, NewIds(base, i + 1), acc, laneChanger, router, initialSpeed)
         == AddRecords(records, base, NewIds(base, i), acc, laneChanger, router, initialSpeed)
              [VehicleName(base, i) := NewRecord(base, VehicleName(base, i), acc, laneChanger, router, initialSpeed)]
  {
    assert NewIds(base, i + 1)[..i] == NewIds(base, i);
  }

  /** Storing the new records adds exactly the new ids and leaves every
      other record as it was. */
  lemma {:induction false} AddRecordsEffect(records: map<string, Record>, base: string, newIds: seq<string>, acc: ControllerClass,
                                            laneChanger: Option<string>, router: Option<string>, initialSpeed: real)
    ensures var r := AddRecords(records, base, newIds, acc, laneChanger, router, initialSpeed);
            && (forall v :: v in r <==> v in records || v in newIds)
            && (forall v :: v in newIds ==> r[v] == NewRecord(base, v, acc, laneChanger, router, initialSpeed))
            && (forall v :: v in records && v !in newIds ==> r[v] == records[v])
    decreases |newIds|
  {
    if |newIds| > 0 {
      var init := newIds[..|newIds| - 1];
      AddRecordsEffect(records, base, init, acc, laneChanger, router, initialSpeed);
      assert forall v :: v in newIds <==> v in init || v == newIds[|newIds| - 1];
    }
  }

  /** Every listed id has a record, the three kind lists are as long as
      the id list together, and an id is listed exactly when some kind list
      holds it. */
  ghost predicate PartitionOf(ids: seq<string>, records: map<string, Record>,
                              sumoIds: seq<string>, rlIds: seq<string>, controlledIds: seq<string>) {
    && (forall k :: 0 <= k < |ids| ==> ids[k] in records)
    && |ids| == |sumoIds| + |rlIds| + |controlledIds|
    && (forall v :: v in ids <==> v in sumoIds || v in rlIds || v in controlledIds)
  }

  /** Appending new ids, all of one kind and all with records, keeps the split. */
  lemma PartitionExtended(ids: seq<string>, records: map<string, Record>,
                          sumoIds: seq<string>, rlIds: seq<string>, controlledIds: seq<string>,
                          added: seq<string>, kind: Kind, records2: map<string, Record>)
    requires PartitionOf(ids, records, sumoIds, rlIds, controlledIds)
    requires forall v :: v in records ==> v in records2
    requires forall v :: v in added ==> v in records2
    ensures PartitionOf(ids + added, records2,
                        sumoIds + (if kind == Sumo then added else []),
                        rlIds + (if kind == Rl then added else []),
                        controlledIds + (if kind == Controlled then added else []))
  {
    var all := ids + added;
    forall k | 0 <= k < |all| ensures all[k] in records2 {
      if k < |ids| {
        assert all[k] == ids[k];
      } else {
        assert all[k] == added[k - |ids|];
      }
    }
  }

  /** How many of the three kind lists hold v. */
  function KindLists(v: string, sumoIds: seq<string>, rlIds: seq<string>, controlledIds: seq<string>): (c: nat)
    ensures c <= 3
    ensures c == 0 <==> v !in sumoIds && v !in rlIds && v !in controlledIds
  {
    (if v in sumoIds then 1 else 0) + (if v in rlIds then 1 else 0) + (if v in controlledIds then 1 else 0)
  }

  /** Every listed id is in exactly one kind list. */
  ghost predicate OneKindEach(ids: seq<string>, sumoIds: seq<string>, rlIds: seq<string>, controlledIds: seq<string>) {
    forall v :: v in ids ==> KindLists(v, sumoIds, rlIds, controlledIds) == 1
  }

  /** When the appended ids are new, every id stays in exactly one of the
      sumo, RL and controlled lists. (A repeated name appended under a
      second kind would sit in two lists, as it does in the code.) */
  lemma OneKindEachExtended(ids: seq<string>, records: map<string, Record>,
                            sumoIds: seq<string>, rlIds: seq<string>, controlledIds: seq<string>,
                            added: seq<string>, kind: Kind)
    requires PartitionOf(ids, records, sumoIds, rlIds, controlledIds)
    requires OneKindEach(ids, sumoIds, rlIds, controlledIds)
    requires forall v :: v in added ==> v !in ids
    ensures OneKindEach(ids + added,
                        sumoIds + (if kind == Sumo then added else []),
                        rlIds + (if kind == Rl then added else []),
                        controlledIds + (if kind == Controlled then added else []))
  {
    var s2 := sumoIds + (if kind == Sumo then added else []);
    var r2 := rlIds + (if kind == Rl then added else []);
    var c2 := controlledIds + (if kind == Controlled then added else []);
    forall v | v in ids + added ensures KindLists(v, s2, r2, c2) == 1 {
      assert v in s2 <==> v in sumoIds || (kind == Sumo && v in added);
      assert v in r2 <==> v in rlIds || (kind == Rl && v in added);
      assert v in c2 <==> v in controlledIds || (kind == Controlled && v in added);
      if v in added {
        assert KindLists(v, sumoIds, rlIds, controlledIds) == 0;
      } else {
        assert v in ids;
      }
    }
  }

  /** A stored record names its type and its own controller; the lane
      changer and the router are None unless given, and the initial speed is kept. */
  lemma NewRecordFields(records: map<string, Record>, base: string, newIds: seq<string>, acc: ControllerClass,
                        laneChanger: Option<string>, router: Option<string>, initialSpeed: real, v: string)
    requires v in newIds
    ensures var r := AddRecords(records, base, newIds, acc, laneChanger, router, initialSpeed);
            && v in r
            && r[v] == NewRecord(base, v, acc, laneChanger, router, initialSpeed)
            && r[v]["type"] == Text(base)
            && r[v]["acc_controller"] == AccController(acc, v)
            && (laneChanger.None? ==> r[v]["lane_changer"] == Nothing)
            && (router.None? ==> r[v]["router"] == Nothing)
            && r[v]["initial_speed"] == Num(initialSpeed)
  {
    AddRecordsEffect(records, base, newIds, acc, laneChanger, router, initialSpeed);
  }

  /** The id list a new vehicle joins, chosen by its controller class. */
  datatype Kind = Sumo | Rl | Controlled

  function KindOf(acc: ControllerClass): Kind {
    match acc
    case SumoController => Sumo
    case RLController => Rl
    case FlowController(_) => Controlled
  }

  class Vehicles {
    var ids: seq<string>
    var controlledIds: seq<string>
    var sumoIds: seq<string>
    var rlIds: seq<string>
    var records: map<string, Record>
    var numVehicles: int
    var numRlVehicles: int
    var numTypes: int
    var types: seq<string>
    var initialSpeeds: seq<real>

    /** The counters agree with the lists, every listed id has a record, and
        the id list is split among the three control kinds. */
    ghost predicate Valid()
      reads this
    {
      && numVehicles == |ids|
      && numRlVehicles == |rlIds|
      && numTypes == |types|
      && Partitioned()
    }

    /** The registry's lists form a partition of its ids. */
    ghost predicate Partitioned()
      reads this
    {
      PartitionOf(ids, records, sumoIds, rlIds, controlledIds)
    }

    constructor ()
      ensures Valid()
      ensures ids == [] && controlledIds == [] && sumoIds == [] && rlIds == []
      ensures records == map[] && types == [] && initialSpeeds == []
      ensures numVehicles == 0 && numRlVehicles == 0 && numTypes == 0
    {
      ids, controlledIds, sumoIds, rlIds := [], [], [], [];
      records := map[];
      numVehicles, numRlVehicles, numTypes := 0, 0, 0;
      types, initialSpeeds := [], [];
    }

    /** `add_vehicles`: n vehicles named base_0 .. base_{n-1}. An empty base
        name or a missing acceleration controller raises ValueError before
        anything changes. The type count and the type list grow on every
        successful call, also for n <= 0 and for a repeated name. */
    method AddVehicles(base: string, acc: Option<ControllerClass>, laneChanger: Option<string>,
                       router: Option<string>, initialSpeed: real, n: int) returns (err: Option<Error>)
      requires Valid()
      modifies this
      ensures Valid()
      ensures err.Some? <==> (base == [] || acc.None?)
      ensures err.Some? ==> err.value.ValueError? && unchanged(this)
      ensures err.None? ==>
        var added := NewIds(base, n);
        && ids == old(ids) + added
        && records == AddRecords(old(records), base, added, acc.value, laneChanger, router, initialSpeed)
        && sumoIds == old(sumoIds) + (if KindOf(acc.value) == Sumo then added else [])
        && rlIds == old(rlIds) + (if KindOf(acc.value) == Rl then added else [])
        && controlledIds == old(controlledIds) + (if KindOf(acc.value) == Controlled then added else [])
        && numTypes == old(numTypes) + 1
        && types == old(types) + [base]
        && initialSpeeds == old(initialSpeeds)
    {
      if base == [] {
        return Some(ValueError("No vehicle id is specified."));
      }
      if acc.None? {
        return Some(ValueError("No acceleration controller is specified."));
      }
      AddAll(base, acc.value, laneChanger, router, initialSpeed, n);
      AddRecordsEffect(old(records), base, NewIds(base, n), acc.value, laneChanger, router, initialSpeed);
      PartitionExtended(old(ids), old(records), old(sumoIds), old(rlIds), old(controlledIds), NewIds(base, n),
                        KindOf(acc.value), records);
      numVehicles := |ids|;
      numRlVehicles := |rlIds|;
      numTypes := numTypes + 1;
      types := types + [base];
      return None;
    }

    /** The loop of `add_vehicles` over `range(n)`. */
    method AddAll(base: string, cls: ControllerClass, laneChanger: Option<string>,
                  router: Option<string>, initialSpeed: real, n: int)
      modifies this`ids, this`records, this`sumoIds, this`rlIds, this`controlledIds
      ensures var added := NewIds(base, n);
        && ids == old(ids) + added
        && records == AddRecords(old(records), base, added, cls, laneChanger, router, initialSpeed)
        && sumoIds == old(sumoIds) + (if KindOf(cls) == Sumo then added else [])
        && rlIds == old(rlIds) + (if KindOf(cls) == Rl then added else [])
        && controlledIds == old(controlledIds) + (if KindOf(cls) == Controlled then added else [])
    {
      var kind := KindOf(cls);
      var count := if n > 0 then n else 0;
      var i := 0;
      while i < count
        invariant 0 <= i <= count
        invariant ids == old(ids) + NewIds(base, i)
        invariant records == AddRecords(old(records), base, NewIds(base, i), cls, laneChanger, router, initialSpeed)
        invariant sumoIds == old(sumoIds) + (if kind == Sumo then NewIds(base, i) else [])
        invariant rlIds == old(rlIds) + (if kind == Rl then NewIds(base, i) else [])
        invariant controlledIds == old(controlledIds) + (if kind == Controlled then NewIds(base, i) else [])
      {
        var vehId := VehicleName(base, i);
        AddRecordsNext(old(records), base, i, cls, laneChanger, router, initialSpeed);
        Append(vehId, NewRecord(base, vehId, cls, laneChanger, router, initialSpeed), kind);
        i := i + 1;
      }
      assert NewIds(base, n) == NewIds(base, i);
    }

    /** One iteration of the loop in `add_vehicles`: the id joins the id
        list and the list of its kind, and its record is stored. */
    method Append(vehId: string, record: Record, kind: Kind)
      modifies this`ids, this`records, this`sumoIds, this`rlIds, this`controlledIds
      ensures ids == old(ids) + [vehId]
      ensures records == old(records)[vehId := record]
      ensures sumoIds == old(sumoIds) + (if kind == Sumo then [vehId] else [])
      ensures rlIds == old(rlIds) + (if kind == Rl then [vehId] else [])
      ensures controlledIds == old(controlledIds) + (if kind == Controlled then [vehId] else [])
    {
      ids := ids + [vehId];
      records := records[vehId := record];
      match kind
      case Sumo => sumoIds := sumoIds + [vehId];
      case Rl => rlIds := rlIds + [vehId];
      case Controlled => controlledIds := controlledIds + [vehId];
    }

    /** The value of field `name` of vehicle `vehId`; a missing vehicle or
        field raises KeyError. */
    function Field(vehId: string, name: string): (r: Result<Value>)
      reads this
      ensures r.Ok? <==> vehId in records && name in records[vehId]
      ensures r.Ok? ==> r.value == records[vehId][name]
      ensures r.Err? ==> r.error == KeyError(if vehId in records then name else vehId)
    {
      if vehId !in records then Err(KeyError(vehId))
      else if name !in records[vehId] then Err(KeyError(name))
      else Ok(records[vehId][name])
    }

    /** Field `name` of every vehicle in `vs`, in that order; the first
        failing lookup raises. */
    function FieldList(vs: seq<string>, name: string): (r: Result<seq<Value>>)
      reads this
      ensures r.Ok? <==> forall k :: 0 <= k < |vs| ==> Field(vs[k], name).Ok?
      ensures r.Ok? ==> |r.value| == |vs| && forall k :: 0 <= k < |vs| ==> r.value[k] == Field(vs[k], name).value
      ensures r.Err? ==> exists k :: 0 <= k < |vs| && Field(vs[k], name) == Err(r.error)
                                  && forall j :: 0 <= j < k ==> Field(vs[j], name).Ok?
      decreases |vs|
    {
      if |vs| == 0 then Ok([])
      else match Field(vs[0], name)
        case Err(e) => Err(e)
        case Ok(x) =>
          match FieldList(vs[1..], name)
          case Err(e) =>
            assert forall k :: 1 <= k < |vs| ==> vs[k] == vs[1..][k - 1];
            Err(e)
          case Ok(xs) =>
            assert forall k :: 1 <= k < |vs| ==> vs[k] == vs[1..][k - 1];
            Ok([x] + xs)
    }

    /** The generic getter `get_state` and every named getter (`get_speed`,
        `get_lane`, ...) with its own field name: a list gives the values in
        the list's order, "all" gives them in id-list order, any other id
        gives that vehicle's value. */
    function Get(q: Query, name: string): (r: Result<Answer>)
      reads this
      ensures q.Many? ==> (r.Ok? <==> FieldList(q.ids, name).Ok?)
      ensures q.Many? && r.Ok? ==> r.value == Values(FieldList(q.ids, name).value)
      ensures q == One("all") ==> (r.Ok? <==> FieldList(ids, name).Ok?)
      ensures q == One("all") && r.Ok? ==> r.value == Values(FieldList(ids, name).value)
      ensures q.One? && q.id != "all" ==> r == (match Field(q.id, name) case Ok(x) => Ok(Single(x)) case Err(e) => Err(e))
    {
      match q
      case Many(vs) =>
        (match FieldList(vs, name) case Ok(xs) => Ok(Values(xs)) case Err(e) => Err(e))
      case One(v) =>
        if v == "all" then
          (match FieldList(ids, name) case Ok(xs) => Ok(Values(xs)) case Err(e) => Err(e))
        else
          (match Field(v, name) case Ok(x) => Ok(Single(x)) case Err(e) => Err(e))
    }

    /** A numeric field as a real; Python's arithmetic refuses any other value. */
    function Number(vehId: string, name: string): (r: Result<real>)
      reads this
      ensures r.Ok? <==> Field(vehId, name).Ok? && (Field(vehId, name).value.Num? || Field(vehId, name).value.Int?)
      ensures r.Ok? && Field(vehId, name).value.Num? ==> r.value == Field(vehId, name).value.x
      ensures r.Ok? && Field(vehId, name).value.Int? ==> r.value == Field(vehId, name).value.i as real
    {
      match Field(vehId, name)
      case Err(e) => Err(e)
      case Ok(Num(x)) => Ok(x)
      case Ok(Int(i)) => Ok(i as real)
      case Ok(_) => Err(TypeError("unsupported operand type"))
    }

    /** Number for every vehicle of `vs`, in order; the first failure raises. */
    function Numbers(vs: seq<string>, name: string): (r: Result<seq<real>>)
      reads this
      ensures r.Ok? <==> forall k :: 0 <= k < |vs| ==> Number(vs[k], name).Ok?
      ensures r.Ok? ==> |r.value| == |vs| && forall k :: 0 <= k < |vs| ==> r.value[k] == Number(vs[k], name).value
      ensures r.Err? ==> exists k :: 0 <= k < |vs| && Number(vs[k], name) == Err(r.error)
      decreases |vs|
    {
      if |vs| == 0 then Ok([])
      else match Number(vs[0], name)
        case Err(e) => Err(e)
        case Ok(x) =>
          match Numbers(vs[1..], name)
          case Err(e) =>
            assert forall k :: 1 <= k < |vs| ==> vs[k] == vs[1..][k - 1];
            Err(e)
          case Ok(xs) =>
            assert forall k :: 1 <= k < |vs| ==> vs[k] == vs[1..][k - 1];
            Ok([x] + xs)
    }

    /** `set_state`: field `name` of `vehId` becomes `value`; a missing
        vehicle raises KeyError and nothing changes. Every other
        (vehicle, field) pair keeps its value, and only the records change. */
    method SetState(vehId: string, name: string, value: Value) returns (err: Option<Error>)
      modifies this`records
      ensures err.Some? <==> vehId !in old(records)
      ensures err.Some? ==> err.value == KeyError(vehId) && records == old(records)
      ensures err.None? ==> Field(vehId, name) == Ok(value)
      ensures forall v, k :: v != vehId || k != name ==> Field(v, k) == old(Field(v, k))
      ensures records.Keys == old(records.Keys)
      ensures records == Updated(old(records), vehId, name, value)
    {
      if vehId !in records {
        return Some(KeyError(vehId));
      }
      records := records[vehId := records[vehId][name := value]];
      return None;
    }

    /** `set_speed`. */
    method SetSpeed(vehId: string, speed: real) returns (err: Option<Error>)
      modifies this`records
      ensures err.Some? <==> vehId !in old(records)
      ensures records == Updated(old(records), vehId, "speed", Num(speed))
    {
      err := SetState(vehId, "speed", Num(speed));
    }

    /** `set_absolute_position`. */
    method SetAbsolutePosition(vehId: string, x: real) returns (err: Option<Error>)
      modifies this`records
      ensures err.Some? <==> vehId !in old(records)
      ensures records == Updated(old(records), vehId, "absolute_position", Num(x))
    {
      err := SetState(vehId, "absolute_position", Num(x));
    }

    /** `set_position`: the position along the current edge. */
    method SetPosition(vehId: string, x: real) returns (err: Option<Error>)
      modifies this`records
      ensures err.Some? <==> vehId !in old(records)
      ensures records == Updated(old(records), vehId, "position", Num(x))
    {
      err := SetState(vehId, "position", Num(x));
    }

    /** `set_edge`. */
    method SetEdge(vehId: string, edge: string) returns (err: Option<Error>)
      modifies this`records
      ensures err.Some? <==> vehId !in old(records)
      ensures records == Updated(old(records), vehId, "edge", Text(edge))
    {
      err := SetState(vehId, "edge", Text(edge));
    }

    /** `set_lane`. */
    method SetLane(vehId: string, lane: int) returns (err: Option<Error>)
      modifies this`records
      ensures err.Some? <==> vehId !in old(records)
      ensures records == Updated(old(records), vehId, "lane", Int(lane))
    {
      err := SetState(vehId, "lane", Int(lane));
    }

    /** `set_route`. */
    method SetRoute(vehId: string, route: seq<string>) returns (err: Option<Error>)
      modifies this`records
      ensures err.Some? <==> vehId !in old(records)
      ensures records == Updated(old(records), vehId, "route", Edges(route))
    {
      err := SetState(vehId, "route", Edges(route));
    }

    /** `set_leader`; None is stored as Nothing. */
    method SetLeader(vehId: string, leader: Option<string>) returns (err: Option<Error>)
      modifies this`records
      ensures err.Some? <==> vehId !in old(records)
      ensures records == Updated(old(records), vehId, "leader", OptionalId(leader))
    {
      err := SetState(vehId, "leader", OptionalId(leader));
    }

    /** `set_follower`; None is stored as Nothing. */
    method SetFollower(vehId: string, follower: Option<string>) returns (err: Option<Error>)
      modifies this`records
      ensures err.Some? <==> vehId !in old(records)
      ensures records == Updated(old(records), vehId, "follower", OptionalId(follower))
    {
      err := SetState(vehId, "follower", OptionalId(follower));
    }

    /** `set_headway`. */
    method SetHeadway(vehId: string, headway: real) returns (err: Option<Error>)
      modifies this`records
      ensures err.Some? <==> vehId !in old(records)
      ensures records == Updated(old(records), vehId, "headway", Num(headway))
    {
      err := SetState(vehId, "headway", Num(headway));
    }
  }

  /** The record map after field `name` of `vehId` is set to `value`; a
      vehicle without a record leaves the map as it was. */
  function Updated(records: map<string, Record>, vehId: string, name: string, value: Value): map<string, Record> {
    if vehId in records then records[vehId := records[vehId][name := value]] else records
  }

  /** Setting a field and reading it back gives the value set; every other
      (vehicle, field) pair reads as before, and no vehicle appears or
      disappears. */
  lemma UpdatedReads(records: map<string, Record>, vehId: string, name: string, value: Value)
    ensures var r := Updated(records, vehId, name, value);
      && r.Keys == records.Keys
      && (vehId in records ==> name in r[vehId] && r[vehId][name] == value)
      && (forall w, k :: w in records && (w != vehId || k != name) ==>
            (k in r[w] <==> k in records[w]) && (k in records[w] ==> r[w][k] == records[w][k]))
  {
  }

  /** A vehicle id or Python's None, as stored in a record. */
  function OptionalId(v: Option<string>): Value {
    match v case Some(id) => Text(id) case None => Nothing
  }

  /** Every id `add_vehicles` creates in one call is distinct from the others. */
  lemma NewIdsDistinct(base: string, n: int)
    ensures forall i, j :: 0 <= i < j < |NewIds(base, n)| ==> NewIds(base, n)[i] != NewIds(base, n)[j]
  {
    forall i, j | 0 <= i < j < |NewIds(base, n)| ensures NewIds(base, n)[i] != NewIds(base, n)[j] {
      NewIdsAt(base, n, i);
      NewIdsAt(base, n, j);
      var a, b := NewIds(base, n)[i], NewIds(base, n)[j];
      if a == b {
        assert a[|base| + 1..] == b[|base| + 1..];
        assert a[|base| + 1..] == NatToString(i) && b[|base| + 1..] == NatToString(j);
        NatToStringInjective(i, j);
      }
    }
  }

  /** Distinct numbers have distinct decimal renderings. */
  lemma {:induction false} NatToStringInjective(m: nat, n: nat)
    requires NatToString(m) == NatToString(n)
    ensures m == n
    decreases m
  {
    var dm, dn := NatToString(m), NatToString(n);
    assert dm[|dm| - 1] == '0' + (m % 10) as char;
    assert dn[|dn| - 1] == '0' + (n % 10) as char;
    assert m % 10 == n % 10;
    if m >= 10 && n >= 10 {
      assert NatToString(m / 10) == dm[..|dm| - 1];
      assert NatToString(n / 10) == dn[..|dn| - 1];
      NatToStringInjective(m / 10, n / 10);
    }
  }
}
