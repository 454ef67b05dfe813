/** The two-intersection environment (flow/envs/two_intersection.py). Its
    observation gives every vehicle, besides speed, position and lane, the
    number of vehicles ahead of and behind it on its approach lane and the
    time left in the current green and until the next green. The four
    per-vehicle tables are dicts that the counting and phase-selection
    routines update in place; here they are the fields of StateTables. */
module TwoIntersection {
  import opened Common
  import opened Registry
  import Glosa
  import BaseEnv
  import LaneChanging

  // ---------------------------------------------------------------------
  // Leaders and followers on one lane

  /** How many of the distances ds are strictly smaller than d: the vehicles
      nearer the stop line than one at distance d. */
  function Closer(ds: seq<real>, d: real): (r: nat)
    ensures r <= |ds|
  {
    if |ds| == 0 then 0 else Closer(ds[..|ds| - 1], d) + (if ds[|ds| - 1] < d then 1 else 0)
  }

  /** How many of the distances ds are strictly larger than d. */
  function Farther(ds: seq<real>, d: real): (r: nat)
    ensures r <= |ds|
  {
    if |ds| == 0 then 0 else Farther(ds[..|ds| - 1], d) + (if ds[|ds| - 1] > d then 1 else 0)
  }

  /** How many of the distances ds are equal to d. */
  function Level(ds: seq<real>, d: real): (r: nat)
    ensures r <= |ds|
  {
    if |ds| == 0 then 0 else Level(ds[..|ds| - 1], d) + (if ds[|ds| - 1] == d then 1 else 0)
  }

  predicate DistinctReals(ds: seq<real>) {
    forall i, j :: 0 <= i < j < |ds| ==> ds[i] != ds[j]
  }

  /** Every other vehicle is a leader, a follower or level with the reference. */
  lemma {:induction false} CountsPartition(ds: seq<real>, d: real)
    ensures Closer(ds, d) + Farther(ds, d) + Level(ds, d) == |ds|
  {
    if |ds| > 0 {
      CountsPartition(ds[..|ds| - 1], d);
    }
  }

  /** A vehicle is level with itself. */
  lemma {:induction false} LevelOfMember(ds: seq<real>, i: nat)
    requires i < |ds|
    ensures Level(ds, ds[i]) >= 1
  {
    if i < |ds| - 1 {
      LevelOfMember(ds[..|ds| - 1], i);
    }
  }

  lemma {:induction false} LevelAbsent(ds: seq<real>, d: real)
    requires forall k :: 0 <= k < |ds| ==> ds[k] != d
    ensures Level(ds, d) == 0
  {
    if |ds| > 0 {
      LevelAbsent(ds[..|ds| - 1], d);
    }
  }

  /** With distinct distances a vehicle is level with itself only. */
  lemma {:induction false} LevelOfDistinct(ds: seq<real>, i: nat)
    requires i < |ds| && DistinctReals(ds)
    ensures Level(ds, ds[i]) == 1
  {
    var init := ds[..|ds| - 1];
    if i < |ds| - 1 {
      LevelOfDistinct(init, i);
    } else {
      LevelAbsent(init, ds[i]);
    }
  }

  /** Everything nearer than a, or level with a, is nearer than any b > a. */
  lemma {:induction false} CloserMonotone(ds: seq<real>, a: real, b: real)
    requires a < b
    ensures Closer(ds, a) + Level(ds, a) <= Closer(ds, b)
  {
    if |ds| > 0 {
      CloserMonotone(ds[..|ds| - 1], a, b);
    }
  }

  /** Leaders plus followers of the i-th vehicle are at most n-1, and exactly
      n-1 when no two vehicles share a distance. */
  lemma LeadersPlusFollowers(ds: seq<real>, i: nat)
    requires i < |ds|
    ensures Closer(ds, ds[i]) + Farther(ds, ds[i]) <= |ds| - 1
    ensures DistinctReals(ds) ==> Closer(ds, ds[i]) + Farther(ds, ds[i]) == |ds| - 1
  {
    CountsPartition(ds, ds[i]);
    LevelOfMember(ds, i);
    if DistinctReals(ds) {
      LevelOfDistinct(ds, i);
    }
  }

  /** The leader counts of the vehicles at distances es, against the lane ds. */
  function SumLeaders(ds: seq<real>, es: seq<real>): nat {
    if |es| == 0 then 0 else SumLeaders(ds, es[..|es| - 1]) + Closer(ds, es[|es| - 1])
  }

  /** The follower counts of the vehicles at distances es, against the lane ds. */
  function SumFollowers(ds: seq<real>, es: seq<real>): nat {
    if |es| == 0 then 0 else SumFollowers(ds, es[..|es| - 1]) + Farther(ds, es[|es| - 1])
  }

  lemma {:induction false} SumLeadersOfEmpty(es: seq<real>)
    ensures SumLeaders([], es) == 0
  {
    if |es| > 0 {
      SumLeadersOfEmpty(es[..|es| - 1]);
    }
  }

  lemma {:induction false} SumLeadersSnoc(ds: seq<real>, x: real, es: seq<real>)
    ensures SumLeaders(ds + [x], es) == SumLeaders(ds, es) + Farther(es, x)
  {
    assert (ds + [x])[..|ds|] == ds;
    if |es| > 0 {
      SumLeadersSnoc(ds, x, es[..|es| - 1]);
    }
  }

  /** Counting the pairs (d, e) with d < e by e or by d gives the same total. */
  lemma {:induction false} SumLeadersIsSumFollowers(ds: seq<real>, es: seq<real>)
    ensures SumLeaders(ds, es) == SumFollowers(es, ds)
  {
    if |ds| == 0 {
      SumLeadersOfEmpty(es);
    } else {
      var init := ds[..|ds| - 1];
      assert init + [ds[|ds| - 1]] == ds;
      SumLeadersSnoc(init, ds[|ds| - 1], es);
      SumLeadersIsSumFollowers(init, es);
    }
  }

  /** Over one lane, the leader counts add up to the follower counts. */
  lemma LaneLeadersBalanceFollowers(ds: seq<real>)
    ensures SumLeaders(ds, ds) == SumFollowers(ds, ds)
  {
    SumLeadersIsSumFollowers(ds, ds);
  }

  /** The leader counts of the first m vehicles of the lane. */
  function Ranks(ds: seq<real>, m: nat): set<nat>
    requires m <= |ds|
  {
    set i | 0 <= i < m :: Closer(ds, ds[i])
  }

  /** The numbers 0 .. n-1. */
  function Below(n: nat): (r: set<nat>)
    ensures forall k: nat :: k in r <==> k < n
  {
    if n == 0 then {} else Below(n - 1) + {n - 1}
  }

  lemma RankInjective(ds: seq<real>, i: nat, j: nat)
    requires i < |ds| && j < |ds| && i != j && DistinctReals(ds)
    ensures Closer(ds, ds[i]) != Closer(ds, ds[j])
  {
    if ds[i] < ds[j] {
      CloserMonotone(ds, ds[i], ds[j]);
      LevelOfMember(ds, i);
    } else {
      assert ds[j] < ds[i] by {
        if j < i { assert ds[j] != ds[i]; }
      }
      CloserMonotone(ds, ds[j], ds[i]);
      LevelOfMember(ds, j);
    }
  }

  lemma {:induction false} RanksCard(ds: seq<real>, m: nat)
    requires m <= |ds| && DistinctReals(ds)
    ensures |Ranks(ds, m)| == m
  {
    if m > 0 {
      RanksCard(ds, m - 1);
      var r := Closer(ds, ds[m - 1]);
      assert Ranks(ds, m) == Ranks(ds, m - 1) + {r};
      forall i | 0 <= i < m - 1 ensures Closer(ds, ds[i]) != r {
        RankInjective(ds, i, m - 1);
      }
    }
  }

  lemma {:induction false} BelowCard(n: nat)
    ensures |Below(n)| == n
  {
    if n > 0 {
      BelowCard(n - 1);
    }
  }

  lemma {:induction false} SubsetCard(a: set<nat>, b: set<nat>)
    requires a <= b
    ensures |a| <= |b|
    decreases |b|
  {
    if a != {} {
      var x :| x in a;
      SubsetCard(a - {x}, b - {x});
    }
  }

  lemma SubsetOfSameSize(a: set<nat>, b: set<nat>)
    requires a <= b && |a| == |b|
    ensures a == b
  {
    if a != b {
      var x :| x in b && x !in a;
      SubsetCard(a, b - {x});
    }
  }

  /** With distinct distances the leader counts of a lane of n vehicles are
      0, 1, ..., n-1, each taken by exactly one vehicle. */
  lemma LeaderCountsArePermutation(ds: seq<real>)
    requires DistinctReals(ds)
    ensures Ranks(ds, |ds|) == Below(|ds|)
    ensures forall i, j :: 0 <= i < j < |ds| ==> Closer(ds, ds[i]) != Closer(ds, ds[j])
  {
    forall i | 0 <= i < |ds| ensures Closer(ds, ds[i]) < |ds| {
      CountsPartition(ds, ds[i]);
      LevelOfMember(ds, i);
    }
    forall i, j | 0 <= i < j < |ds| ensures Closer(ds, ds[i]) != Closer(ds, ds[j]) {
      RankInjective(ds, i, j);
    }
    RanksCard(ds, |ds|);
    BelowCard(|ds|);
    SubsetOfSameSize(Ranks(ds, |ds|), Below(|ds|));
  }

  // ---------------------------------------------------------------------
  // Per-vehicle tables

  predicate Positioned(ids: seq<string>, pos: map<string, real>) {
    forall k :: 0 <= k < |ids| ==> ids[k] in pos
  }

  /** The distance of each listed vehicle to the end of its lane. */
  function Distances(ids: seq<string>, laneLength: real, pos: map<string, real>): (ds: seq<real>)
    requires Positioned(ids, pos)
    ensures |ds| == |ids| && forall k :: 0 <= k < |ids| ==> ds[k] == laneLength - pos[ids[k]]
  {
    seq(|ids|, k requires 0 <= k < |ids| => laneLength - pos[ids[k]])
  }

  /** The leader (or follower) count of every vehicle of a lane, in lane order. */
  function Counts(ds: seq<real>, leaders: bool): (c: seq<int>)
    ensures |c| == |ds|
  {
    seq(|ds|, k requires 0 <= k < |ds| => if leaders then Closer(ds, ds[k]) else Farther(ds, ds[k]))
  }

  /** The table m after writing counts[k] for ids[k], k in order. */
  function WithCounts(m: map<string, int>, ids: seq<string>, counts: seq<int>): (r: map<string, int>)
    requires |counts| == |ids|
  {
    if |ids| == 0 then m
    else WithCounts(m, ids[..|ids| - 1], counts[..|ids| - 1])[ids[|ids| - 1] := counts[|ids| - 1]]
  }

  lemma WithCountsNext(m: map<string, int>, ids: seq<string>, counts: seq<int>, i: nat)
    requires |counts| == |ids| && i < |ids|
    ensures WithCounts(m, ids[..i + 1], counts[..i + 1]) == WithCounts(m, ids[..i], counts[..i])[ids[i] := counts[i]]
  {
    assert ids[..i + 1][..i] == ids[..i];
    assert counts[..i + 1][..i] == counts[..i];
  }

  /** An unlisted vehicle keeps its entry; a listed one gets its count (all
      entries of one id agree, since it has one position). */
  lemma {:induction false} WithCountsAt(m: map<string, int>, ids: seq<string>, counts: seq<int>, v: string, c: int)
    requires |counts| == |ids|
    requires forall k :: 0 <= k < |ids| && ids[k] == v ==> counts[k] == c
    ensures v in WithCounts(m, ids, counts) <==> v in m || v in ids
    ensures v !in ids && v in m ==> WithCounts(m, ids, counts)[v] == m[v]
    ensures v in ids ==> WithCounts(m, ids, counts)[v] == c
  {
    if |ids| > 0 {
      var n := |ids| - 1;
      WithCountsAt(m, ids[..n], counts[..n], v, c);
      if v != ids[n] {
        assert v in ids ==> v in ids[..n] by {
          if v in ids {
            var k :| 0 <= k < |ids| && ids[k] == v;
            assert ids[..n][k] == v;
          }
        }
      }
    }
  }

  /** The counts a lane list writes: a listed vehicle's leaders are the
      listed vehicles strictly nearer the end of the lane, its followers
      those strictly farther; every other entry keeps its value. */
  lemma CountEntries(m: map<string, int>, ids: seq<string>, laneLength: real, pos: map<string, real>, leaders: bool, v: string)
    requires Positioned(ids, pos)
    ensures var ds := Distances(ids, laneLength, pos);
      var r := WithCounts(m, ids, Counts(ds, leaders));
      && (v in r <==> v in m || v in ids)
      && (v in ids ==> v in pos && r[v] == if leaders then Closer(ds, laneLength - pos[v]) else Farther(ds, laneLength - pos[v]))
      && (v !in ids && v in m ==> r[v] == m[v])
  {
    var ds := Distances(ids, laneLength, pos);
    if v in ids {
      var k :| 0 <= k < |ids| && ids[k] == v;
      var c := if leaders then Closer(ds, ds[k]) else Farther(ds, ds[k]);
      WithCountsAt(m, ids, Counts(ds, leaders), v, c);
    } else {
      WithCountsAt(m, ids, Counts(ds, leaders), v, 0);
    }
  }

  /** A dict with a 0 (or 0.0) entry for every id, as get_state presets them. */
  function Preset<T>(ids: seq<string>, zero: T): (r: map<string, T>)
    ensures forall v :: v in r <==> v in ids
    ensures forall v :: v in r ==> r[v] == zero
  {
    map v | v in ids :: zero
  }

  // ---------------------------------------------------------------------
  // Green times

  /** Seconds from the end of the current phase to the next green, by phase. */
  const NextGreenOffsets: seq<real> := [57.0, 54.0, 48.0, 45.0, 12.0, 9.0, 6.0, 0.0]

  datatype Green = Green(remaining: real, next: real)

  /** The remaining green and the time to the next green of phase phaseNo,
      from untilSwitch, the simulator's next-switch time less its current
      time, in milliseconds. Both results are in seconds: the next green is
      untilSwitch / 1000 plus the phase's offset, and only phase 1, the
      green phase, has green time left. */
  function GreenTimes(phaseNo: int, untilSwitch: real): (g: Green)
    requires 1 <= phaseNo <= 8
    ensures g.next == NextGreenOffsets[phaseNo - 1] + untilSwitch / 1000.0
    ensures g.remaining == (if phaseNo == 1 then untilSwitch / 1000.0 else 0.0)
  {
    var remaining := untilSwitch / 1000.0;
    if phaseNo == 1 then Green(remaining, 57.0 + remaining)
    else if phaseNo == 2 then Green(0.0, 54.0 + remaining)
    else if phaseNo == 3 then Green(0.0, 48.0 + remaining)
    else if phaseNo == 4 then Green(0.0, 45.0 + remaining)
    else if phaseNo == 5 then Green(0.0, 12.0 + remaining)
    else if phaseNo == 6 then Green(0.0, 9.0 + remaining)
    else if phaseNo == 7 then Green(0.0, 6.0 + remaining)
    else Green(0.0, remaining)
  }

  /** The later the phase, the sooner the next green; none is reported as
      coming before the current phase ends, and in the green phase the next
      green comes 57 seconds after the remaining green runs out. */
  lemma GreenTimesOrdered(i: int, j: int, untilSwitch: real)
    requires 1 <= i <= j <= 8
    ensures GreenTimes(i, untilSwitch).next >= GreenTimes(j, untilSwitch).next
    ensures GreenTimes(i, untilSwitch).next >= untilSwitch / 1000.0
    ensures i > 1 ==> GreenTimes(i, untilSwitch).remaining == 0.0
    ensures GreenTimes(1, untilSwitch).next == GreenTimes(1, untilSwitch).remaining + 57.0
  {
  }

  /** The phase string and the time to the next switch (next-switch time
      less current time, in the simulator's milliseconds), read from the
      simulator for one vehicle. */
  datatype PhaseReading = PhaseReading(phase: string, untilSwitch: real)

  /** The remaining-green and next-green dicts. */
  datatype Lights = Lights(remaining: map<string, real>, next: map<string, real>)

  function SetGreen(l: Lights, v: string, g: Green): Lights {
    Lights(l.remaining[v := g.remaining], l.next[v := g.next])
  }

  /** One iteration of a phase selector: a phase string found in `table`
      writes that phase's green times for v, any other string writes nothing. */
  function SelectOne(l: Lights, table: seq<string>, v: string, rd: PhaseReading): Lights
    requires |table| == 8
  {
    match Glosa.PhaseIndex(table, rd.phase)
    case None => l
    case Some(k) => SetGreen(l, v, GreenTimes(k, rd.untilSwitch))
  }

  /** A phase selector over a lane list, one reading per listed vehicle. */
  function Selected(l: Lights, table: seq<string>, ids: seq<string>, readings: seq<PhaseReading>): Lights
    requires |table| == 8 && |readings| == |ids|
  {
    if |ids| == 0 then l
    else
      var n := |ids| - 1;
      SelectOne(Selected(l, table, ids[..n], readings[..n]), table, ids[n], readings[n])
  }

  /** A vehicle not in the list, or one whose every reading is an unknown
      phase string, keeps both of its entries (present or absent). */
  lemma {:induction false} SelectedKeeps(l: Lights, table: seq<string>, ids: seq<string>, readings: seq<PhaseReading>, v: string)
    requires |table| == 8 && |readings| == |ids|
    requires forall k :: 0 <= k < |ids| && ids[k] == v ==> readings[k].phase !in table
    ensures var r := Selected(l, table, ids, readings);
      (v in r.remaining <==> v in l.remaining) && (v in r.next <==> v in l.next) &&
      (v in l.remaining ==> r.remaining[v] == l.remaining[v]) && (v in l.next ==> r.next[v] == l.next[v])
  {
    if |ids| > 0 {
      var n := |ids| - 1;
      SelectedKeeps(l, table, ids[..n], readings[..n], v);
    }
  }

  /** A selector never removes an entry. */
  lemma {:induction false} SelectedKeys(l: Lights, table: seq<string>, ids: seq<string>, readings: seq<PhaseReading>, v: string)
    requires |table| == 8 && |readings| == |ids|
    ensures v in l.remaining ==> v in Selected(l, table, ids, readings).remaining
    ensures v in l.next ==> v in Selected(l, table, ids, readings).next
  {
    if |ids| > 0 {
      SelectedKeys(l, table, ids[..|ids| - 1], readings[..|ids| - 1], v);
    }
  }

  predicate DistinctIds(ids: seq<string>) {
    forall i, j :: 0 <= i < j < |ids| ==> ids[i] != ids[j]
  }

  /** In a list without repeats, a vehicle whose phase string is known gets
      the green times of that phase. */
  lemma {:induction false} SelectedKnown(l: Lights, table: seq<string>, ids: seq<string>, readings: seq<PhaseReading>, k: nat)
    requires |table| == 8 && |readings| == |ids| && DistinctIds(ids)
    requires k < |ids| && readings[k].phase in table
    ensures var r := Selected(l, table, ids, readings);
      var g := GreenTimes(Glosa.PhaseIndex(table, readings[k].phase).value, readings[k].untilSwitch);
      ids[k] in r.remaining && r.remaining[ids[k]] == g.remaining && ids[k] in r.next && r.next[ids[k]] == g.next
  {
    var n := |ids| - 1;
    if k < n {
      SelectedKnown(l, table, ids[..n], readings[..n], k);
    }
  }

  /** The string the table numbers ((i + 3) mod 8) + 1 when s is its i-th
      phase: s moved four phases along the cycle. */
  function RotatePhase(table: seq<string>, s: string): string
    requires |table| == 8
  {
    match Glosa.PhaseIndex(table, s)
    case None => s
    case Some(i) => table[(i + 3) % 8]
  }

  function RotateReadings(table: seq<string>, readings: seq<PhaseReading>): (r: seq<PhaseReading>)
    requires |table| == 8
    ensures |r| == |readings|
    ensures forall k :: 0 <= k < |r| ==> r[k] == PhaseReading(RotatePhase(table, readings[k].phase), readings[k].untilSwitch)
  {
    seq(|readings|, k requires 0 <= k < |readings| => PhaseReading(RotatePhase(table, readings[k].phase), readings[k].untilSwitch))
  }

  /** One selector step with a table u that is t rotated by four. */
  lemma SelectOneRotated(l: Lights, t: seq<string>, u: seq<string>, v: string, rd: PhaseReading)
    requires |t| == 8 && |u| == 8 && Glosa.Distinct(t) && Glosa.Distinct(u)
    requires forall k :: 0 <= k < 4 ==> u[k] == t[k + 4] && u[k + 4] == t[k]
    ensures SelectOne(l, u, v, rd) == SelectOne(l, t, v, PhaseReading(RotatePhase(t, rd.phase), rd.untilSwitch))
  {
    Glosa.PhaseIndexRotated(t, u, rd.phase);
    if rd.phase in t {
      var j := (Glosa.PhaseIndex(t, rd.phase).value + 3) % 8;
      Glosa.PhaseIndexOfEntry(t, j);
      assert RotatePhase(t, rd.phase) == t[j];
      assert Glosa.PhaseIndex(u, rd.phase) == Some(j + 1);
    } else {
      assert RotatePhase(t, rd.phase) == rd.phase;
    }
  }

  /** A selector with a table rotated by four does what the unrotated one
      does on readings whose phase is moved four phases along the cycle. */
  lemma {:induction false} SelectedRotated(l: Lights, t: seq<string>, u: seq<string>, ids: seq<string>, readings: seq<PhaseReading>)
    requires |t| == 8 && |u| == 8 && Glosa.Distinct(t) && Glosa.Distinct(u)
    requires forall k :: 0 <= k < 4 ==> u[k] == t[k + 4] && u[k + 4] == t[k]
    requires |readings| == |ids|
    ensures Selected(l, u, ids, readings) == Selected(l, t, ids, RotateReadings(t, readings))
  {
    if |ids| > 0 {
      var n := |ids| - 1;
      SelectedRotated(l, t, u, ids[..n], readings[..n]);
      assert RotateReadings(t, readings)[..n] == RotateReadings(t, readings[..n]);
      SelectOneRotated(Selected(l, u, ids[..n], readings[..n]), t, u, ids[n], readings[n]);
    }
  }

  /** phaseSelector2 is phaseSelector1 on readings whose phase is moved four
      phases along the cycle; strings neither knows stay unknown. */
  lemma Selector2IsSelector1Rotated(l: Lights, ids: seq<string>, readings: seq<PhaseReading>)
    requires |readings| == |ids|
    ensures Selected(l, Glosa.Caller1Table, ids, readings) ==
      Selected(l, Glosa.CallerTable, ids, RotateReadings(Glosa.CallerTable, readings))
  {
    Glosa.CallerTableDistinct();
    Glosa.Caller1TableDistinct();
    SelectedRotated(l, Glosa.CallerTable, Glosa.Caller1Table, ids, readings);
  }

  // ---------------------------------------------------------------------
  // The four tables of get_state

  /** The per-vehicle leader and follower counts and the green times that
      get_state fills in before building its rows. */
  class StateTables {
    var noLeader: map<string, int>
    var noFollower: map<string, int>
    var remainingGreen: map<string, real>
    var nextGreen: map<string, real>

    /** Every sorted id starts with 0 in all four tables. */
    constructor (sortedIds: seq<string>)
      ensures noLeader == Preset(sortedIds, 0) && noFollower == Preset(sortedIds, 0)
      ensures remainingGreen == Preset(sortedIds, 0.0) && nextGreen == Preset(sortedIds, 0.0)
    {
      var lead: map<string, int>, follow: map<string, int> := map[], map[];
      var rem: map<string, real>, next: map<string, real> := map[], map[];
      var i := 0;
      while i < |sortedIds|
        invariant 0 <= i <= |sortedIds|
        invariant lead == Preset(sortedIds[..i], 0) && follow == lead
        invariant rem == Preset(sortedIds[..i], 0.0) && next == rem
      {
        assert sortedIds[..i + 1] == sortedIds[..i] + [sortedIds[i]];
        lead, follow := lead[sortedIds[i] := 0], follow[sortedIds[i] := 0];
        rem, next := rem[sortedIds[i] := 0.0], next[sortedIds[i] := 0.0];
        i := i + 1;
      }
      assert sortedIds[..i] == sortedIds;
      noLeader, noFollower, remainingGreen, nextGreen := lead, follow, rem, next;
    }

    /** `calculateNoOfLeadersAndFollowers`: for each listed vehicle, count the
        listed vehicles strictly nearer to and strictly farther from the end
        of the lane, and store both counts. */
    method CountLeadersAndFollowers(vehicleList: seq<string>, laneLength: real, pos: map<string, real>)
      requires Positioned(vehicleList, pos)
      modifies this`noLeader, this`noFollower
      ensures noLeader == WithCounts(old(noLeader), vehicleList, Counts(Distances(vehicleList, laneLength, pos), true))
      ensures noFollower == WithCounts(old(noFollower), vehicleList, Counts(Distances(vehicleList, laneLength, pos), false))
    {
      ghost var ds := Distances(vehicleList, laneLength, pos);
      ghost var lead0, follow0 := noLeader, noFollower;
      var i := 0;
      while i < |vehicleList|
        invariant 0 <= i <= |vehicleList|
        invariant noLeader == WithCounts(lead0, vehicleList[..i], Counts(ds, true)[..i])
        invariant noFollower == WithCounts(follow0, vehicleList[..i], Counts(ds, false)[..i])
      {
        var v := vehicleList[i];
        var leaderCount, followerCount := CountAround(vehicleList, laneLength, pos, laneLength - pos[v], ds);
        WithCountsNext(lead0, vehicleList, Counts(ds, true), i);
        WithCountsNext(follow0, vehicleList, Counts(ds, false), i);
        assert Counts(ds, true)[i] == leaderCount && Counts(ds, false)[i] == followerCount;
        noLeader := noLeader[v := leaderCount];
        noFollower := noFollower[v := followerCount];
        i := i + 1;
      }
      assert vehicleList[..i] == vehicleList;
      assert Counts(ds, true)[..i] == Counts(ds, true);
      assert Counts(ds, false)[..i] == Counts(ds, false);
    }

    /** The inner loop of `calculateNoOfLeadersAndFollowers`: the listed
        vehicles strictly nearer and strictly farther than distanceRef. */
    method CountAround(vehicleList: seq<string>, laneLength: real, pos: map<string, real>, distanceRef: real,
                       ghost ds: seq<real>) returns (leaderCount: int, followerCount: int)
      requires Positioned(vehicleList, pos) && ds == Distances(vehicleList, laneLength, pos)
      ensures leaderCount == Closer(ds, distanceRef) && followerCount == Farther(ds, distanceRef)
    {
      leaderCount, followerCount := 0, 0;
      var x := 0;
      while x < |vehicleList|
        invariant 0 <= x <= |vehicleList|
        invariant leaderCount == Closer(ds[..x], distanceRef)
        invariant followerCount == Farther(ds[..x], distanceRef)
      {
        assert ds[..x + 1][..x] == ds[..x];
        var distance := laneLength - pos[vehicleList[x]];
        if distanceRef > distance {
          leaderCount := leaderCount + 1;
        } else if distanceRef < distance {
          followerCount := followerCount + 1;
        }
        x := x + 1;
      }
      assert ds[..x] == ds;
    }

    /** `calculateRemainigtimeANDNextGreenLight`: store the green times of
        phase phaseNo for one vehicle. */
    method SetGreenTimes(vehId: string, phaseNo: int, untilSwitch: real)
      requires 1 <= phaseNo <= 8
      modifies this`remainingGreen, this`nextGreen
      ensures Lights(remainingGreen, nextGreen) ==
        SetGreen(Lights(old(remainingGreen), old(nextGreen)), vehId, GreenTimes(phaseNo, untilSwitch))
    {
      var g := GreenTimes(phaseNo, untilSwitch);
      remainingGreen := remainingGreen[vehId := g.remaining];
      nextGreen := nextGreen[vehId := g.next];
    }

    /** `phaseSelector1` (with table caller's) and `phaseSelector2` (with
        caller1's): read the phase for each listed vehicle and store the
        green times of the phase it names. */
    method PhaseSelector(table: seq<string>, vehicleList: seq<string>, readings: seq<PhaseReading>)
      requires |table| == 8 && |readings| == |vehicleList|
      modifies this`remainingGreen, this`nextGreen
      ensures Lights(remainingGreen, nextGreen) ==
        Selected(Lights(old(remainingGreen), old(nextGreen)), table, vehicleList, readings)
    {
      ghost var l0 := Lights(remainingGreen, nextGreen);
      var x := 0;
      while x < |vehicleList|
        invariant 0 <= x <= |vehicleList|
        invariant Lights(remainingGreen, nextGreen) == Selected(l0, table, vehicleList[..x], readings[..x])
      {
        assert vehicleList[..x + 1][..x] == vehicleList[..x];
        assert readings[..x + 1][..x] == readings[..x];
        var phaseNo := Glosa.PhaseIndex(table, readings[x].phase);
        if phaseNo.Some? {
          SetGreenTimes(vehicleList[x], phaseNo.value, readings[x].untilSwitch);
        }
        x := x + 1;
      }
      assert vehicleList[..x] == vehicleList;
      assert readings[..x] == readings;
    }

    /** The eight calls of `calculateNoOfLeadersAndFollowers` in get_state. */
    method CountAllLanes(lanes: seq<LaneView>, lengths: seq<real>, pos: map<string, real>)
      requires LanesRead(lanes, pos) && |lengths| == 4
      modifies this`noLeader, this`noFollower
      ensures noLeader == CountLanes(old(noLeader), lanes, lengths, pos, true, 8)
      ensures noFollower == CountLanes(old(noFollower), lanes, lengths, pos, false, 8)
    {
      ghost var lead0, follow0 := noLeader, noFollower;
      var j := 0;
      while j < 8
        invariant 0 <= j <= 8
        invariant noLeader == CountLanes(lead0, lanes, lengths, pos, true, j)
        invariant noFollower == CountLanes(follow0, lanes, lengths, pos, false, j)
      {
        CountLeadersAndFollowers(lanes[j].ids, lengths[j / 2], pos);
        j := j + 1;
      }
    }

    /** The eight phase-selector calls in get_state. */
    method SelectAllLanes(lanes: seq<LaneView>, pos: map<string, real>)
      requires LanesRead(lanes, pos)
      modifies this`remainingGreen, this`nextGreen
      ensures Lights(remainingGreen, nextGreen) == SelectLanes(Lights(old(remainingGreen), old(nextGreen)), lanes, pos, 8)
    {
      ghost var l0 := Lights(remainingGreen, nextGreen);
      var j := 0;
      while j < 8
        invariant 0 <= j <= 8
        invariant Lights(remainingGreen, nextGreen) == SelectLanes(l0, lanes, pos, j)
      {
        PhaseSelector(SelectorTable(j), lanes[j].ids, lanes[j].readings);
        j := j + 1;
      }
    }
  }

  // ---------------------------------------------------------------------
  // get_state

  /** One approach lane as get_state reads it: the vehicles the simulator
      lists on it and the phase reading taken for each of them. */
  datatype LaneView = LaneView(ids: seq<string>, readings: seq<PhaseReading>)

  /** The eight lanes, in the order get_state visits them: altleft1_0,
      altleft1_1, altright1_0, altright1_1, altbottom1_0, altbottom1_1,
      alttop1_0, alttop1_1. */
  predicate LanesRead(lanes: seq<LaneView>, pos: map<string, real>) {
    && |lanes| == 8
    && forall j :: 0 <= j < 8 ==> Positioned(lanes[j].ids, pos) && |lanes[j].readings| == |lanes[j].ids|
  }

  /** The lanes of the left and right approaches go through phaseSelector1,
      those of the bottom and top approaches through phaseSelector2. */
  function SelectorTable(j: int): (t: seq<string>)
    ensures |t| == 8
  {
    if j < 4 then Glosa.CallerTable else Glosa.Caller1Table
  }

  /** The leader (or follower) table after counting lanes 0 .. n-1; lane j
      uses the length lengths[j / 2] of its approach (left, right, bottom, top). */
  function CountLanes(m: map<string, int>, lanes: seq<LaneView>, lengths: seq<real>, pos: map<string, real>,
                      leaders: bool, n: nat): map<string, int>
    requires LanesRead(lanes, pos) && |lengths| == 4 && n <= 8
  {
    if n == 0 then m
    else
      var ids := lanes[n - 1].ids;
      WithCounts(CountLanes(m, lanes, lengths, pos, leaders, n - 1), ids,
                 Counts(Distances(ids, lengths[(n - 1) / 2], pos), leaders))
  }

  /** The green-time tables after the phase selectors of lanes 0 .. n-1. */
  function SelectLanes(l: Lights, lanes: seq<LaneView>, pos: map<string, real>, n: nat): Lights
    requires LanesRead(lanes, pos) && n <= 8
  {
    if n == 0 then l
    else Selected(SelectLanes(l, lanes, pos, n - 1), SelectorTable(n - 1), lanes[n - 1].ids, lanes[n - 1].readings)
  }

  predicate OnlyOn(lanes: seq<LaneView>, j: int, v: string)
    requires |lanes| == 8 && 0 <= j < 8
  {
    v in lanes[j].ids && forall i :: 0 <= i < 8 && i != j ==> v !in lanes[i].ids
  }

  /** A vehicle on exactly one lane gets the counts of that lane; a vehicle
      on none keeps its preset entry. */
  lemma {:induction false} CountLanesOf(m: map<string, int>, lanes: seq<LaneView>, lengths: seq<real>, pos: map<string, real>,
                                         leaders: bool, n: nat, v: string)
    requires LanesRead(lanes, pos) && |lengths| == 4 && n <= 8
    ensures var r := CountLanes(m, lanes, lengths, pos, leaders, n);
      && (v in m ==> v in r)
      && ((forall i :: 0 <= i < n ==> v !in lanes[i].ids) && v in m ==> r[v] == m[v])
      && (forall j :: 0 <= j < n && v in lanes[j].ids && (forall i :: j < i < n ==> v !in lanes[i].ids) ==>
            var ds := Distances(lanes[j].ids, lengths[j / 2], pos);
            v in pos && v in r && r[v] == if leaders then Closer(ds, lengths[j / 2] - pos[v]) else Farther(ds, lengths[j / 2] - pos[v]))
  {
    if n > 0 {
      CountLanesOf(m, lanes, lengths, pos, leaders, n - 1, v);
      CountEntries(CountLanes(m, lanes, lengths, pos, leaders, n - 1), lanes[n - 1].ids, lengths[(n - 1) / 2], pos, leaders, v);
    }
  }

  predicate SameLights(r: Lights, l: Lights, v: string) {
    && (v in r.remaining <==> v in l.remaining) && (v in r.next <==> v in l.next)
    && (v in l.remaining ==> r.remaining[v] == l.remaining[v]) && (v in l.next ==> r.next[v] == l.next[v])
  }

  /** A vehicle whose every reading on lanes 0 .. n-1 is an unknown phase
      string (in particular one on none of those lanes) keeps its entries. */
  lemma {:induction false} SelectLanesUnknown(l: Lights, lanes: seq<LaneView>, pos: map<string, real>, n: nat, v: string)
    requires LanesRead(lanes, pos) && n <= 8
    requires forall i, k :: 0 <= i < n && 0 <= k < |lanes[i].ids| && lanes[i].ids[k] == v ==>
      lanes[i].readings[k].phase !in SelectorTable(i)
    ensures SameLights(SelectLanes(l, lanes, pos, n), l, v)
  {
    if n > 0 {
      SelectLanesUnknown(l, lanes, pos, n - 1, v);
      SelectedKeeps(SelectLanes(l, lanes, pos, n - 1), SelectorTable(n - 1), lanes[n - 1].ids, lanes[n - 1].readings, v);
    }
  }

  /** A vehicle listed once on lane j and on no later lane gets the green
      times of the phase its reading on lane j names. */
  lemma {:induction false} SelectLanesKnown(l: Lights, lanes: seq<LaneView>, pos: map<string, real>, n: nat, j: nat, k: nat)
    requires LanesRead(lanes, pos) && j < n <= 8
    requires DistinctIds(lanes[j].ids) && k < |lanes[j].ids| && lanes[j].readings[k].phase in SelectorTable(j)
    requires forall i :: j < i < n ==> lanes[j].ids[k] !in lanes[i].ids
    ensures var r := SelectLanes(l, lanes, pos, n);
      var v := lanes[j].ids[k];
      var g := GreenTimes(Glosa.PhaseIndex(SelectorTable(j), lanes[j].readings[k].phase).value, lanes[j].readings[k].untilSwitch);
      v in r.remaining && r.remaining[v] == g.remaining && v in r.next && r.next[v] == g.next
  {
    var prev := SelectLanes(l, lanes, pos, n - 1);
    if j == n - 1 {
      SelectedKnown(prev, SelectorTable(j), lanes[j].ids, lanes[j].readings, k);
    } else {
      SelectLanesKnown(l, lanes, pos, n - 1, j, k);
      SelectedKeeps(prev, SelectorTable(n - 1), lanes[n - 1].ids, lanes[n - 1].readings, lanes[j].ids[k]);
    }
  }

  /** The selectors never remove an entry. */
  lemma {:induction false} SelectLanesKeys(l: Lights, lanes: seq<LaneView>, pos: map<string, real>, n: nat, v: string)
    requires LanesRead(lanes, pos) && n <= 8
    ensures v in l.remaining ==> v in SelectLanes(l, lanes, pos, n).remaining
    ensures v in l.next ==> v in SelectLanes(l, lanes, pos, n).next
  {
    if n > 0 {
      SelectLanesKeys(l, lanes, pos, n - 1, v);
      SelectedKeys(SelectLanes(l, lanes, pos, n - 1), SelectorTable(n - 1), lanes[n - 1].ids, lanes[n - 1].readings, v);
    }
  }

  /** The distance column: the altleft lane's length minus the lane position,
      for every sorted id. */
  function ToJunction(ids: seq<string>, laneLength: real, pos: map<string, real>): (r: map<string, real>)
    requires Positioned(ids, pos)
    ensures forall v :: v in r <==> v in ids
  {
    map v | v in ids :: laneLength - pos[v]
  }

  /** The loop that fills distanceToJunction. */
  method DistancesToJunction(ids: seq<string>, laneLength: real, pos: map<string, real>) returns (d: map<string, real>)
    requires Positioned(ids, pos)
    ensures d == ToJunction(ids, laneLength, pos)
  {
    d := map[];
    var i := 0;
    while i < |ids|
      invariant 0 <= i <= |ids|
      invariant d == ToJunction(ids[..i], laneLength, pos)
    {
      assert ids[..i + 1] == ids[..i] + [ids[i]];
      d := d[ids[i] := laneLength - pos[ids[i]]];
      i := i + 1;
    }
    assert ids[..i] == ids;
  }

  /** The eight columns of a vehicle's row, or the exception building it
      raises: a missing record or field is a KeyError, a non-numeric one a
      TypeError, a zero enter speed or network length a ZeroDivisionError. */
  function Row(vehicles: Vehicles, v: string, noLeader: map<string, int>, noFollower: map<string, int>, l: Lights,
               toJunction: map<string, real>, length: real, enterSpeed: real): (r: Result<seq<real>>)
    reads vehicles
    requires v in noLeader && v in noFollower && v in l.remaining && v in l.next && v in toJunction
    ensures r.Ok? <==> (vehicles.Number(v, "speed").Ok? && enterSpeed != 0.0 &&
                        vehicles.Number(v, "absolute_position").Ok? && length != 0.0 && vehicles.Number(v, "lane").Ok?)
    ensures r.Ok? ==> |r.value| == 8 && r.value[2] == toJunction[v] && r.value[4] == noLeader[v] as real && r.value[5] == noFollower[v] as real
    ensures r.Ok? ==> r.value[0] * enterSpeed == vehicles.Number(v, "speed").value
    ensures r.Ok? ==> r.value[1] * length == vehicles.Number(v, "absolute_position").value
    ensures r.Ok? ==> r.value[3] == vehicles.Number(v, "lane").value && r.value[6] == l.remaining[v] && r.value[7] == l.next[v]
  {
    match vehicles.Number(v, "speed")
    case Err(e) => Err(e)
    case Ok(speed) =>
      if enterSpeed == 0.0 then Err(ZeroDivisionError)
      else match vehicles.Number(v, "absolute_position")
        case Err(e) => Err(e)
        case Ok(x) =>
          if length == 0.0 then Err(ZeroDivisionError)
          else match vehicles.Number(v, "lane")
            case Err(e) => Err(e)
            case Ok(lane) =>
              Ok([speed / enterSpeed, x / length, toJunction[v], lane,
                  noLeader[v] as real, noFollower[v] as real, l.remaining[v], l.next[v]])
  }

  /** One row per id, in the order of the ids; the first failing row raises. */
  function Rows(vehicles: Vehicles, ids: seq<string>, noLeader: map<string, int>, noFollower: map<string, int>, l: Lights,
                toJunction: map<string, real>, length: real, enterSpeed: real): (r: Result<seq<seq<real>>>)
    reads vehicles
    requires forall v :: v in ids ==> v in noLeader && v in noFollower && v in l.remaining && v in l.next && v in toJunction
    ensures r.Ok? <==> forall k :: 0 <= k < |ids| ==> Row(vehicles, ids[k], noLeader, noFollower, l, toJunction, length, enterSpeed).Ok?
    ensures r.Ok? ==> |r.value| == |ids|
    ensures r.Ok? ==> forall k :: 0 <= k < |ids| ==> r.value[k] == Row(vehicles, ids[k], noLeader, noFollower, l, toJunction, length, enterSpeed).value
    decreases |ids|
  {
    if |ids| == 0 then Ok([])
    else match Row(vehicles, ids[0], noLeader, noFollower, l, toJunction, length, enterSpeed)
      case Err(e) => Err(e)
      case Ok(row) =>
        assert forall k :: 1 <= k < |ids| ==> ids[k] == ids[1..][k - 1];
        match Rows(vehicles, ids[1..], noLeader, noFollower, l, toJunction, length, enterSpeed)
        case Err(e) => Err(e)
        case Ok(rest) => Ok([row] + rest)
  }

  /** `get_state`: preset the four tables for the sorted ids, count leaders
      and followers on each of the eight lanes, run the phase selectors, and
      build one row per sorted id. */
  method GetState(vehicles: Vehicles, sortedIds: seq<string>, lanes: seq<LaneView>, lengths: seq<real>,
                  pos: map<string, real>, length: real, enterSpeed: real) returns (rows: Result<seq<seq<real>>>)
    requires LanesRead(lanes, pos) && |lengths| == 4 && Positioned(sortedIds, pos)
    ensures forall v :: v in sortedIds ==>
      v in CountLanes(Preset(sortedIds, 0), lanes, lengths, pos, true, 8) &&
      v in CountLanes(Preset(sortedIds, 0), lanes, lengths, pos, false, 8) &&
      v in SelectLanes(Lights(Preset(sortedIds, 0.0), Preset(sortedIds, 0.0)), lanes, pos, 8).remaining &&
      v in SelectLanes(Lights(Preset(sortedIds, 0.0), Preset(sortedIds, 0.0)), lanes, pos, 8).next
    ensures rows == Rows(vehicles, sortedIds,
                         CountLanes(Preset(sortedIds, 0), lanes, lengths, pos, true, 8),
                         CountLanes(Preset(sortedIds, 0), lanes, lengths, pos, false, 8),
                         SelectLanes(Lights(Preset(sortedIds, 0.0), Preset(sortedIds, 0.0)), lanes, pos, 8),
                         ToJunction(sortedIds, lengths[0], pos), length, enterSpeed)
  {
    var t := new StateTables(sortedIds);
    t.CountAllLanes(lanes, lengths, pos);
    t.SelectAllLanes(lanes, pos);
    var toJunction := DistancesToJunction(sortedIds, lengths[0], pos);
    forall v | v in sortedIds
      ensures v in t.noLeader && v in t.noFollower && v in t.remainingGreen && v in t.nextGreen
    {
      CountLanesOf(Preset(sortedIds, 0), lanes, lengths, pos, true, 8, v);
      CountLanesOf(Preset(sortedIds, 0), lanes, lengths, pos, false, 8, v);
      SelectLanesKeys(Lights(Preset(sortedIds, 0.0), Preset(sortedIds, 0.0)), lanes, pos, 8, v);
    }
    rows := Rows(vehicles, sortedIds, t.noLeader, t.noFollower, Lights(t.remainingGreen, t.nextGreen), toJunction, length, enterSpeed);
  }

  // ---------------------------------------------------------------------
  // Actions

  /** `apply_rl_actions`: the accelerations actions[::2] and the rounded
      directions of actions[1::2] go to the RL vehicles in `sorted_ids`
      order, accelerations first; there is no lane-change cooldown. The
      i-th RL vehicle is sent a slowDown towards its speed plus actions[2 i]
      times the time step. */
  function RlStep(vehicles: Vehicles, prev: map<string, Value>, ctx: LaneChanging.Ctx, actions: seq<real>): (r: LaneChanging.Step)
    reads vehicles
    ensures r.error.None? ==> (|LaneChanging.RlOf(vehicles, ctx)| <= |r.commands| &&
      2 * |LaneChanging.RlOf(vehicles, ctx)| <= |actions| + 1)
    ensures r.error.None? ==> forall i :: 0 <= i < |LaneChanging.RlOf(vehicles, ctx)| ==>
      vehicles.Number(LaneChanging.RlOf(vehicles, ctx)[i], "speed").Ok? &&
      r.commands[i] == SlowDown(LaneChanging.RlOf(vehicles, ctx)[i],
        BaseEnv.NextSpeed(vehicles.Number(LaneChanging.RlOf(vehicles, ctx)[i], "speed").value, actions[2 * i], ctx.timeStep),
        BaseEnv.SlowDownMs)
  {
    var sortedRl := LaneChanging.RlOf(vehicles, ctx);
    match BaseEnv.Accelerate(vehicles, sortedRl, Evens(actions), ctx.timeStep)
    case Err(e) => LaneChanging.Step(prev, [], Some(e))
    case Ok(acc) =>
      LaneChanging.ThenLaneChange(acc,
        BaseEnv.ApplyLaneChange(vehicles, prev, ctx.lanes, sortedRl, Some(LaneChanging.Directions(actions)), None))
  }

  /** `apply_rl_actions` on the environment. */
  method ApplyRlActions(env: BaseEnv.Env, actions: seq<real>) returns (commands: seq<Command>, err: Option<Error>)
    modifies env
    ensures var r := RlStep(env.vehicles, old(env.prevLastLc),
                            LaneChanging.Ctx(env.lanes, env.timeStep, old(env.sortedIds), old(env.timer), 0.0), actions);
      env.prevLastLc == r.prevLastLc && commands == r.commands && err == r.error
    ensures env.timer == old(env.timer) && env.sortedIds == old(env.sortedIds)
  {
    var sortedRl := LaneChanging.SortedRlIds(env.sortedIds, env.vehicles.rlIds);
    var acc := env.ApplyAcceleration(sortedRl, Evens(actions));
    if acc.Err? {
      return [], Some(acc.error);
    }
    var laneCommands, outcome := env.LaneChangeStep(sortedRl, Some(LaneChanging.Directions(actions)), None);
    commands := acc.value + laneCommands;
    err := if outcome.Raised? then Some(outcome.error) else None;
  }

  /** Every RL vehicle whose rounded direction actions[2 i + 1] says to leave
      its lane is sent that lane change, when the step raised nothing. */
  lemma RlDirectionApplied(vehicles: Vehicles, prev: map<string, Value>, ctx: LaneChanging.Ctx, actions: seq<real>, i: nat)
    requires ctx.lanes >= 2 && RlStep(vehicles, prev, ctx, actions).error.None?
    requires i < |LaneChanging.RlOf(vehicles, ctx)| == |actions| / 2
    ensures vehicles.Number(LaneChanging.RlOf(vehicles, ctx)[i], "lane").Ok?
    ensures LaneChanging.SentLaneChange(vehicles, ctx.lanes, LaneChanging.RlOf(vehicles, ctx)[i], Round(actions[2 * i + 1]) as real,
                                        RlStep(vehicles, prev, ctx, actions).commands)
  {
    var sortedRl := LaneChanging.RlOf(vehicles, ctx);
    var dirs := LaneChanging.Directions(actions);
    RlStepCompleted(vehicles, prev, ctx, actions);
    LaneChanging.DirectionApplied(vehicles, prev, ctx.lanes, sortedRl, dirs, i);
    LaneChanging.SentLaneChangeAfter(vehicles, ctx.lanes, sortedRl[i], dirs[i],
      BaseEnv.Accelerate(vehicles, sortedRl, Evens(actions), ctx.timeStep).value,
      BaseEnv.ApplyLaneChange(vehicles, prev, ctx.lanes, sortedRl, Some(dirs), None).commands);
  }

  /** A step that raised nothing sent every acceleration and completed the
      lane change's per-vehicle loop. */
  lemma RlStepCompleted(vehicles: Vehicles, prev: map<string, Value>, ctx: LaneChanging.Ctx, actions: seq<real>)
    requires ctx.lanes >= 2 && RlStep(vehicles, prev, ctx, actions).error.None?
    ensures var sortedRl := LaneChanging.RlOf(vehicles, ctx);
      && BaseEnv.Accelerate(vehicles, sortedRl, Evens(actions), ctx.timeStep).Ok?
      && var lc := BaseEnv.ApplyLaneChange(vehicles, prev, ctx.lanes, sortedRl, Some(LaneChanging.Directions(actions)), None);
         lc.outcome == BaseEnv.Applied
         && RlStep(vehicles, prev, ctx, actions).commands ==
            BaseEnv.Accelerate(vehicles, sortedRl, Evens(actions), ctx.timeStep).value + lc.commands
  {
    var sortedRl := LaneChanging.RlOf(vehicles, ctx);
    LaneChanging.NotRaisedIsApplied(vehicles, prev, ctx.lanes, sortedRl, Some(LaneChanging.Directions(actions)), None);
  }

  /** The accelerations are sent before any lane change. */
  lemma RlAccelerationsFirst(vehicles: Vehicles, prev: map<string, Value>, ctx: LaneChanging.Ctx, actions: seq<real>)
    ensures LaneChanging.AccelerationsFirst(RlStep(vehicles, prev, ctx, actions).commands)
  {
    var sortedRl := LaneChanging.RlOf(vehicles, ctx);
    var acc := BaseEnv.Accelerate(vehicles, sortedRl, Evens(actions), ctx.timeStep);
    if acc.Ok? {
      var dirs := Some(LaneChanging.Directions(actions));
      LaneChanging.LaneCommandsAreLaneChanges(vehicles, prev, ctx.lanes, sortedRl, dirs, None);
      LaneChanging.AccelerationsAreSlowDowns(vehicles, sortedRl, Evens(actions), ctx.timeStep);
      LaneChanging.SlowDownsThenLaneChanges(acc.value,
        BaseEnv.ApplyLaneChange(vehicles, prev, ctx.lanes, sortedRl, dirs, None).commands);
    }
  }
}
