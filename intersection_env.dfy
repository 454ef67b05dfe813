/** The intersection environment: each vehicle's distance to the nearest
    intersection and the vehicle order by that distance. The distance
    loop computes the same value, 1480 minus the vehicle's lane position,
    for every intersection. The minimum is therefore reached at the first
    intersection. */
module IntersectionEnv {
  import opened Common
  import opened Registry
  import Sorting

  /** The position of the intersection on every approach, in metres. */
  const IntersectionX: real := 1480.0

  /** An intersection edge start: the edge and its start position. */
  type EdgeStart = (string, real)

  /** The edges of the intersection edge starts, in order. */
  predicate EdgesOf(edges: seq<string>, starts: seq<EdgeStart>) {
    |edges| == |starts| && forall i :: 0 <= i < |starts| ==> edges[i] == starts[i].0
  }

  /** The appending loop of the constructor: `intersection_edges` holds the
      first component of each edge start, or nothing when the scenario
      defines no edge starts. */
  method IntersectionEdges(starts: Option<seq<EdgeStart>>) returns (edges: seq<string>)
    ensures starts.None? ==> edges == []
    ensures starts.Some? ==> EdgesOf(edges, starts.value)
  {
    edges := [];
    if starts.Some? {
      var i := 0;
      while i < |starts.value|
        invariant 0 <= i <= |starts.value|
        invariant EdgesOf(edges, starts.value[..i])
      {
        edges := edges + [starts.value[i].0];
        i := i + 1;
      }
      assert starts.value[..i] == starts.value;
    }
  }

  /** `np.argmin(np.abs(ds))`: the first index of an entry of least
      magnitude. */
  function ArgMinAbs(ds: seq<real>): (r: nat)
    requires |ds| > 0
    ensures r < |ds|
    ensures forall k :: 0 <= k < |ds| ==> Abs(ds[r]) <= Abs(ds[k])
    ensures forall k :: 0 <= k < r ==> Abs(ds[k]) > Abs(ds[r])
  {
    if |ds| == 1 then 0
    else
      var init := ds[..|ds| - 1];
      var i := ArgMinAbs(init);
      assert forall k :: 0 <= k < |init| ==> init[k] == ds[k];
      if Abs(ds[|ds| - 1]) < Abs(init[i]) then |ds| - 1 else i
  }

  /** `get_x_by_id`, for its errors only: the value it computes is not used.
      A vehicle without an edge, or on an edge but without a position,
      raises KeyError. The scenario's `get_x` is not part of this model. */
  function XReadError(vehicles: Vehicles, v: string): (r: Option<Error>)
    reads vehicles
    ensures r.Some? ==> r.value.KeyError?
    ensures vehicles.Field(v, "edge").Err? ==> r.Some?
  {
    match vehicles.Field(v, "edge")
    case Err(e) => Some(e)
    case Ok(edge) =>
      if edge == Text("") then None
      else match vehicles.Field(v, "position")
        case Err(e) => Some(e)
        case Ok(_) => None
  }

  /** `find_intersection_dist` as written: one candidate distance per edge
      start, each 1480 minus the lane position the simulator reports for the
      vehicle, and the candidate of least magnitude with its edge. A missing
      edge starts attribute raises AttributeError and an empty list
      ValueError. */
  function IntersectionDist(vehicles: Vehicles, starts: Option<seq<EdgeStart>>, lanePos: string -> real, v: string)
    : (r: Result<(real, string)>)
    reads vehicles
    ensures r.Ok? <==> XReadError(vehicles, v).None? && starts.Some? && |starts.value| > 0
  {
    match XReadError(vehicles, v)
    case Some(e) => Err(e)
    case None =>
      if starts.None? then Err(AttributeError("intersection_edgestarts"))
      else if |starts.value| == 0 then Err(ValueError("The scenario does not contain intersections."))
      else
        var dist := seq(|starts.value|, _ => IntersectionX - lanePos(v));
        var ind := ArgMinAbs(dist);
        Ok((dist[ind], starts.value[ind].0))
  }

  /** Every candidate distance is the same, so the answer is always
      1480 minus the lane position, at the first intersection. */
  lemma IntersectionDistIsFirst(vehicles: Vehicles, starts: Option<seq<EdgeStart>>, lanePos: string -> real, v: string)
    requires IntersectionDist(vehicles, starts, lanePos, v).Ok?
    ensures IntersectionDist(vehicles, starts, lanePos, v).value == (IntersectionX - lanePos(v), starts.value[0].0)
  {
    var dist := seq(|starts.value|, _ => IntersectionX - lanePos(v));
    var ind := ArgMinAbs(dist);
    assert Abs(dist[0]) > Abs(dist[ind]) ==> 0 < ind;
    assert ind == 0;
  }

  /** The two appending loops of `find_intersection_dist`, then the argmin. */
  method FindIntersectionDist(vehicles: Vehicles, starts: Option<seq<EdgeStart>>, lanePos: string -> real, v: string)
    returns (r: Result<(real, string)>)
    ensures r == IntersectionDist(vehicles, starts, lanePos, v)
  {
    var err := XReadError(vehicles, v);
    if err.Some? {
      return Err(err.value);
    }
    if starts.None? {
      return Err(AttributeError("intersection_edgestarts"));
    }
    var es := starts.value;
    if |es| == 0 {
      return Err(ValueError("The scenario does not contain intersections."));
    }
    var dist: seq<real> := [];
    var intersection: seq<string> := [];
    var i := 0;
    while i < |es|
      invariant 0 <= i <= |es|
      invariant dist == seq(i, _ => IntersectionX - lanePos(v))
      invariant EdgesOf(intersection, es[..i])
    {
      var xPosition := lanePos(v);
      dist := dist + [IntersectionX - xPosition];
      intersection := intersection + [es[i].0];
      i := i + 1;
    }
    var ind := ArgMinAbs(dist);
    return Ok((dist[ind], intersection[ind]));
  }

  /** What `get_distance_to_intersection` returns: a list of distances for
      a list of ids, a (distance, edge) pair for a single id. */
  datatype Distance = Pair(dist: real, edge: string) | Dists(ds: seq<real>)

  /** The distances of a list of ids, in order, or the first error. */
  function DistList(vehicles: Vehicles, starts: Option<seq<EdgeStart>>, lanePos: string -> real, ids: seq<string>)
    : (r: Result<seq<real>>)
    reads vehicles
    ensures r.Ok? <==> forall k :: 0 <= k < |ids| ==> IntersectionDist(vehicles, starts, lanePos, ids[k]).Ok?
    ensures r.Ok? ==> |r.value| == |ids|
    ensures r.Ok? ==> forall k :: 0 <= k < |ids| ==> r.value[k] == IntersectionDist(vehicles, starts, lanePos, ids[k]).value.0
    decreases |ids|
  {
    if |ids| == 0 then Ok([])
    else match IntersectionDist(vehicles, starts, lanePos, ids[0])
      case Err(e) => Err(e)
      case Ok(d) =>
        match DistList(vehicles, starts, lanePos, ids[1..])
        case Err(e) => Err(e)
        case Ok(rest) => Ok([d.0] + rest)
  }

  /** `get_distance_to_intersection`: a list argument gives the list of
      distances in the same order, a single id its distance and edge. */
  function GetDistance(vehicles: Vehicles, starts: Option<seq<EdgeStart>>, lanePos: string -> real, q: Query)
    : (r: Result<Distance>)
    reads vehicles
    ensures q.Many? ==> (r.Ok? <==> DistList(vehicles, starts, lanePos, q.ids).Ok?)
    ensures q.Many? && r.Ok? ==> r.value.Dists? && |r.value.ds| == |q.ids|
    ensures q.Many? && r.Ok? ==> forall k :: 0 <= k < |q.ids| ==> r.value.ds[k] == IntersectionX - lanePos(q.ids[k])
    ensures q.One? ==> (r.Ok? <==> IntersectionDist(vehicles, starts, lanePos, q.id).Ok?)
    ensures q.One? && r.Ok? ==> r.value == Pair(IntersectionX - lanePos(q.id), starts.value[0].0)
  {
    match q
    case One(v) =>
      (match IntersectionDist(vehicles, starts, lanePos, v)
       case Err(e) => Err(e)
       case Ok(d) =>
         IntersectionDistIsFirst(vehicles, starts, lanePos, v);
         Ok(Pair(d.0, d.1)))
    case Many(ids) =>
      match DistList(vehicles, starts, lanePos, ids)
      case Err(e) => Err(e)
      case Ok(ds) =>
        forall k | 0 <= k < |ids| ensures ds[k] == IntersectionX - lanePos(ids[k]) {
          IntersectionDistIsFirst(vehicles, starts, lanePos, ids[k]);
        }
        Ok(Dists(ds))
  }

  /** `sort_by_intersection_dist`: the vehicle ids reordered by distance to
      the intersection, that is by decreasing lane position. */
  function SortByIntersectionDist(vehicles: Vehicles, starts: Option<seq<EdgeStart>>, lanePos: string -> real)
    : (r: Result<seq<string>>)
    reads vehicles
    ensures r.Ok? <==> DistList(vehicles, starts, lanePos, vehicles.ids).Ok?
    ensures r.Ok? ==> multiset(r.value) == multiset(vehicles.ids)
    ensures r.Ok? ==> forall a, b :: 0 <= a < b < |r.value| ==>
      IntersectionX - lanePos(r.value[a]) <= IntersectionX - lanePos(r.value[b])
    ensures r.Ok? ==> forall a, b :: 0 <= a < b < |r.value| ==> lanePos(r.value[a]) >= lanePos(r.value[b])
  {
    match GetDistance(vehicles, starts, lanePos, Many(vehicles.ids))
    case Err(e) => Err(e)
    case Ok(_) =>
      var ids := vehicles.ids;
      var key := map v | v in ids :: IntersectionX - lanePos(v);
      var sorted := Sorting.SortByKey(ids, key);
      assert forall a :: 0 <= a < |sorted| ==> sorted[a] in multiset(sorted);
      Ok(sorted)
  }
}
