/** Values shared by every part of the model: error outcomes, the simulator
    commands the controllers issue, and the small pieces of numpy arithmetic
    (rounding, clipping, broadcasting) the environments rely on. */
module Common {

  datatype Option<+T> = None | Some(value: T)

  /** The Python exceptions the modelled code can raise. */
  datatype Error =
    | ValueError(msg: string)
    | KeyError(key: string)
    | TypeError(msg: string)
    | AttributeError(name: string)
    | IndexError
    | ZeroDivisionError
    | MathDomainError

  datatype Result<+T> = Ok(value: T) | Err(error: Error)

  /** A command sent to the simulator over its remote-control connection. */
  datatype Command =
    | SetSpeed(vehId: string, speed: real)
    | SlowDown(vehId: string, speed: real, durationMs: real)
    | SetSpeedMode(vehId: string, mode: int)
    | ChangeLane(vehId: string, lane: int, lcDurationMs: int)

  /** sqrt, cos and pow are not defined here: a model receives them as values
      and may assume only what Lawful states about them. */
  datatype RealOps = RealOps(sqrt: real -> real, cos: real -> real, pow: (real, real) -> real)

  ghost predicate Lawful(ops: RealOps) {
    && (forall x :: 0.0 <= x ==> 0.0 <= ops.sqrt(x) && ops.sqrt(x) * ops.sqrt(x) == x)
    && (forall x :: -1.0 <= ops.cos(x) <= 1.0)
  }

  function Max(a: real, b: real): (r: real)
    ensures r >= a && r >= b && (r == a || r == b)
  {
    if a >= b then a else b
  }

  function Min(a: real, b: real): (r: real)
    ensures r <= a && r <= b && (r == a || r == b)
  {
    if a <= b then a else b
  }

  function Abs(a: real): real { if a < 0.0 then -a else a }

  /** numpy.clip on one entry: min(max(x, lo), hi), so hi wins when lo > hi. */
  function Clip(x: real, lo: real, hi: real): (r: real)
    ensures lo <= hi ==> lo <= r <= hi
    ensures lo <= x <= hi ==> r == x
    ensures x < lo && lo <= hi ==> r == lo
    ensures x > hi ==> r == hi
  {
    Min(Max(x, lo), hi)
  }

  /** numpy.sign. */
  function Sign(x: real): (r: real)
    ensures r == -1.0 || r == 0.0 || r == 1.0
    ensures (r == x) <==> (x == -1.0 || x == 0.0 || x == 1.0)
  {
    if x < 0.0 then -1.0 else if x > 0.0 then 1.0 else 0.0
  }

  /** Python's int() on a float: truncation toward zero. */
  function Trunc(x: real): (r: int)
    ensures x >= 0.0 ==> r >= 0 && r as real <= x < r as real + 1.0
    ensures x < 0.0 ==> r <= 0 && r as real - 1.0 < x <= r as real
  {
    if x >= 0.0 then x.Floor else -((-x).Floor)
  }

  /** numpy.round: round half to even. */
  function Round(x: real): (r: int)
    ensures Abs(x - r as real) <= 0.5
    ensures Abs(x - r as real) == 0.5 ==> r % 2 == 0
  {
    var f := x.Floor;
    var frac := x - f as real;
    if frac < 0.5 then f
    else if frac > 0.5 then f + 1
    else if f % 2 == 0 then f
    else f + 1
  }

  /** The length of `a + b` for two one-dimensional numpy arrays of lengths
      n and m, or None when numpy refuses to broadcast them. */
  function BroadcastLength(n: nat, m: nat): (r: Option<nat>)
    ensures r.Some? <==> (n == m || n == 1 || m == 1)
    ensures r.Some? ==> r.value == (if n == 1 then m else n)
  {
    if n == m then Some(n)
    else if n == 1 then Some(m)
    else if m == 1 then Some(n)
    else None
  }

  /** Entry i of an array after broadcasting: a one-element array repeats. */
  function BroadcastAt<T>(s: seq<T>, i: nat): T
    requires |s| == 1 || i < |s|
  {
    if |s| == 1 then s[0] else s[i]
  }

  /** Keep the entries of s at even indices (Python `s[::2]`). */
  function Evens<T>(s: seq<T>): (r: seq<T>)
    ensures |r| == (|s| + 1) / 2
    ensures forall i :: 0 <= i < |r| ==> r[i] == s[2 * i]
    decreases |s|
  {
    if |s| == 0 then []
    else if |s| == 1 then [s[0]]
    else [s[0]] + Evens(s[2..])
  }

  /** Keep the entries of s at odd indices (Python `s[1::2]`). */
  function Odds<T>(s: seq<T>): (r: seq<T>)
    ensures |r| == |s| / 2
    ensures forall i :: 0 <= i < |r| ==> r[i] == s[2 * i + 1]
  {
    if |s| <= 1 then [] else Evens(s[1..])
  }

  /** Decimal rendering of a natural number, as Python's `'%d' % i`. */
  function NatToString(n: nat): (r: string)
    ensures |r| >= 1
    ensures forall k :: 0 <= k < |r| ==> '0' <= r[k] <= '9'
  {
    var d := ['0' + (n % 10) as char];
    if n < 10 then d else NatToString(n / 10) + d
  }
}
