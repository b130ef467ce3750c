/** The rolling history of hotness snapshots and the temperature and access trends read off it, region by region. */
module HotnessHistory {
  import opened Types
  import opened Sequences
  import AT = AccessTrend

  datatype Temperature = Hot | Warm | Cold | Frozen {
    function Value(): nat {
      match this
      case Hot => 3
      case Warm => 2
      case Cold => 1
      case Frozen => 0
    }
  }

  datatype AddressRange = AddressRange(start: nat, end: nat)

  datatype Sample = Sample(range: AddressRange, accessCount: nat, temperature: Temperature)

  datatype Snapshot = Snapshot(samples: seq<Sample>, timestamp: nat)

  datatype TemperatureTrend =
    | Stable(at: Temperature)
    | Warming(from: Temperature, upTo: Temperature)
    | Cooling(from: Temperature, downTo: Temperature)
    | Flapping

  /** The region's first sample in a snapshot. */
  function Find(samples: seq<Sample>, region: AddressRange): (found: Option<Sample>)
    ensures found.Some? ==> found.value in samples && found.value.range == region
    ensures found == None ==> forall i :: 0 <= i < |samples| ==> samples[i].range != region
  {
    if samples == [] then None
    else if samples[0].range == region then Some(samples[0])
    else Find(samples[1..], region)
  }

  method FindFirst(samples: seq<Sample>, region: AddressRange) returns (found: Option<Sample>)
    ensures found == Find(samples, region)
  {
    for i := 0 to |samples|
      invariant Find(samples, region) == Find(samples[i..], region)
    {
      if samples[i].range == region {
        return Some(samples[i]);
      }
    }
    return None;
  }

  /** The region's samples over a history; a snapshot without the region contributes none. */
  function Seen(snapshots: seq<Snapshot>, region: AddressRange): seq<Sample> {
    if snapshots == [] then []
    else
      var n := |snapshots| - 1;
      Seen(snapshots[..n], region) + Observed(snapshots[n], region)
  }

  function Observed(snapshot: Snapshot, region: AddressRange): seq<Sample> {
    match Find(snapshot.samples, region)
    case Some(sample) => [sample]
    case None => []
  }

  function Temperatures(samples: seq<Sample>): (ts: seq<Temperature>)
    ensures |ts| == |samples|
  {
    if samples == [] then []
    else var n := |samples| - 1; Temperatures(samples[..n]) + [samples[n].temperature]
  }

  function Counts(samples: seq<Sample>): (cs: seq<nat>)
    ensures |cs| == |samples|
  {
    if samples == [] then []
    else var n := |samples| - 1; Counts(samples[..n]) + [samples[n].accessCount]
  }

  function Changes(temps: seq<Temperature>): nat {
    if |temps| < 2 then 0
    else
      var n := |temps| - 1;
      Changes(temps[..n]) + (if temps[n] != temps[n - 1] then 1 else 0)
  }

  function TemperatureTrendOf(temps: seq<Temperature>): TemperatureTrend {
    if temps == [] then Stable(Frozen)
    else if Changes(temps) > |temps| / 2 then Flapping
    else
      var first, last := temps[0], temps[|temps| - 1];
      if last.Value() > first.Value() then Warming(first, last)
      else if last.Value() < first.Value() then Cooling(first, last)
      else Stable(last)
  }

  method CountChanges(temps: seq<Temperature>) returns (changes: nat)
    ensures changes == Changes(temps)
  {
    changes := 0;
    if temps == [] {
      return;
    }
    for i := 1 to |temps|
      invariant changes == Changes(temps[..i])
    {
      assert temps[..i + 1][..i] == temps[..i];
      if temps[i] != temps[i - 1] {
        changes := changes + 1;
      }
    }
    assert temps[..|temps|] == temps;
  }

  method JudgeTemperatures(temps: seq<Temperature>) returns (trend: TemperatureTrend)
    ensures trend == TemperatureTrendOf(temps)
  {
    if temps == [] {
      return Stable(Frozen);
    }
    var changes := CountChanges(temps);
    if changes > |temps| / 2 {
      return Flapping;
    }
    var first, last := temps[0], temps[|temps| - 1];
    if last.Value() > first.Value() {
      return Warming(first, last);
    } else if last.Value() < first.Value() {
      return Cooling(first, last);
    }
    return Stable(last);
  }

  lemma ReadingsStep(snapshots: seq<Snapshot>, k: nat, region: AddressRange)
    requires k < |snapshots|
    ensures var seen, next := Seen(snapshots[..k], region), Seen(snapshots[..k + 1], region);
      match Find(snapshots[k].samples, region)
      case None => next == seen
      case Some(sample) =>
        && Temperatures(next) == Temperatures(seen) + [sample.temperature]
        && Counts(next) == Counts(seen) + [sample.accessCount]
  {
    assert snapshots[..k + 1] == snapshots[..k] + [snapshots[k]];
    var found := Find(snapshots[k].samples, region);
    if found.Some? {
    }
  }

  method CollectTemperatures(snapshots: seq<Snapshot>, region: AddressRange) returns (temps: seq<Temperature>)
    ensures temps == Temperatures(Seen(snapshots, region))
  {
    temps := [];
    for k := 0 to |snapshots|
      invariant temps == Temperatures(Seen(snapshots[..k], region))
    {
      ReadingsStep(snapshots, k, region);
      var found := FindFirst(snapshots[k].samples, region);
      if found.Some? {
        temps := temps + [found.value.temperature];
      }
    }
    assert snapshots[..|snapshots|] == snapshots;
  }

  method CollectCounts(snapshots: seq<Snapshot>, region: AddressRange) returns (counts: seq<nat>)
    ensures counts == Counts(Seen(snapshots, region))
  {
    counts := [];
    for k := 0 to |snapshots|
      invariant counts == Counts(Seen(snapshots[..k], region))
    {
      ReadingsStep(snapshots, k, region);
      var found := FindFirst(snapshots[k].samples, region);
      if found.Some? {
        counts := counts + [found.value.accessCount];
      }
    }
    assert snapshots[..|snapshots|] == snapshots;
  }

  class HotnessHistory {
    var snapshots: seq<Snapshot>
    const maxSnapshots: nat
    ghost var log: seq<Snapshot>   // everything pushed since the last clear

    ghost predicate Valid()
      reads this
    {
      0 < maxSnapshots && snapshots == Suffix(log, maxSnapshots)
    }

    constructor (maxSnapshots: nat)
      ensures Valid() && log == [] && this.maxSnapshots == if maxSnapshots < 1 then 1 else maxSnapshots
    {
      this.maxSnapshots := if maxSnapshots < 1 then 1 else maxSnapshots;
      snapshots, log := [], [];
    }

    /** The history afterwards is the most recent snapshots of everything pushed. */
    method Push(snapshot: Snapshot)
      requires Valid()
      modifies this
      ensures Valid() && log == old(log) + [snapshot]
    {
      snapshots := snapshots + [snapshot];
      log := log + [snapshot];
      ghost var all := snapshots;
      while |snapshots| > maxSnapshots
        invariant |snapshots| <= |all| && snapshots == all[|all| - |snapshots|..]
        invariant |snapshots| == |all| || maxSnapshots <= |snapshots|
        invariant log == old(log) + [snapshot]
      {
        snapshots := snapshots[1..];
      }
    }

    method Clear()
      requires Valid()
      modifies this
      ensures Valid() && log == []
    {
      snapshots, log := [], [];
    }

    method GetTemperatureTrend(region: AddressRange) returns (trend: TemperatureTrend)
      requires Valid()
      ensures trend == TemperatureTrendOf(Temperatures(Seen(Suffix(log, maxSnapshots), region)))
    {
      var temps := CollectTemperatures(snapshots, region);
      trend := JudgeTemperatures(temps);
    }

    method GetAccessTrend(region: AddressRange) returns (trend: AT.AccessTrend)
      requires Valid()
      ensures trend == AT.AccessTrendOf(Counts(Seen(Suffix(log, maxSnapshots), region)))
    {
      var counts := CollectCounts(snapshots, region);
      return AT.AccessTrendOf(counts);
    }
  }

  // ---- regions that only warm up ----

  ghost predicate NeverCools(temps: seq<Temperature>) {
    forall i, j :: 0 <= i <= j < |temps| ==> temps[i].Value() <= temps[j].Value()
  }

  lemma {:induction false} WarmingChangesBounded(temps: seq<Temperature>)
    requires temps != [] && NeverCools(temps)
    ensures Changes(temps) <= temps[|temps| - 1].Value() - temps[0].Value()
  {
    if |temps| >= 2 {
      var n := |temps| - 1;
      WarmingChangesBounded(temps[..n]);
      assert temps[n - 1].Value() <= temps[n].Value();
    }
  }

  /** A region that never cools is not called cooling, and with six or more observations not flapping either. */
  lemma {:induction false} WarmingNotCooling(temps: seq<Temperature>)
    requires NeverCools(temps)
    ensures !TemperatureTrendOf(temps).Cooling?
    ensures |temps| < 3 || |temps| > 5 ==> !TemperatureTrendOf(temps).Flapping?
  {
    if temps != [] {
      WarmingChangesBounded(temps);
      if |temps| == 2 {
        assert Changes(temps) <= 1;
      }
    }
  }

  /** The positions whose temperature differs from the one before. */
  ghost function Turns(temps: seq<Temperature>): set<int> {
    set i | 1 <= i < |temps| && Differs(temps, i)
  }

  predicate Differs(temps: seq<Temperature>, i: int)
    requires 1 <= i < |temps|
  {
    temps[i] != temps[i - 1]
  }

  lemma {:induction false} ChangesAreTurns(temps: seq<Temperature>)
    ensures Changes(temps) == |Turns(temps)|
  {
    if |temps| < 2 {
      assert Turns(temps) == {};
    } else {
      var n := |temps| - 1;
      ChangesAreTurns(temps[..n]);
      forall i | 1 <= i < n ensures Differs(temps, i) == Differs(temps[..n], i) {
      }
      assert Turns(temps) == Turns(temps[..n]) + if Differs(temps, n) then {n} else {};
      assert n !in Turns(temps[..n]);
    }
  }

  /** The answer is flapping exactly if more than half of the positions differ from the one before; else the ends decide. */
  lemma {:induction false} TemperatureTrendIff(temps: seq<Temperature>)
    requires temps != []
    ensures var trend, first, last := TemperatureTrendOf(temps), temps[0], temps[|temps| - 1];
      && (trend == Flapping <==> |Turns(temps)| > |temps| / 2)
      && (|Turns(temps)| <= |temps| / 2 ==>
            && (trend == Warming(first, last) <==> first.Value() < last.Value())
            && (trend == Cooling(first, last) <==> last.Value() < first.Value())
            && (trend == Stable(first) <==> first == last))
  {
    ChangesAreTurns(temps);
  }

  /** A region that never cools: from six observations on it is called warming, or stable if nothing changed. */
  lemma {:induction false} SteadyRegion(temps: seq<Temperature>)
    requires temps != [] && NeverCools(temps)
    ensures var first, last := temps[0], temps[|temps| - 1];
      && (first == last ==> TemperatureTrendOf(temps) == Stable(first))
      && (first != last && |temps| >= 6 ==> TemperatureTrendOf(temps) == Warming(first, last))
  {
    WarmingChangesBounded(temps);
  }

  /** A region that only warms up, yet is called flapping. */
  function SteadyClimb(n: nat): (temps: seq<Temperature>)
    requires 3 <= n <= 5
    ensures |temps| == n && NeverCools(temps)
  {
    if n == 3 then [Frozen, Cold, Warm]
    else if n == 4 then [Frozen, Cold, Warm, Hot]
    else [Frozen, Cold, Warm, Hot, Hot]
  }

  lemma ClimbFlaps(n: nat)
    requires 3 <= n <= 5
    ensures TemperatureTrendOf(SteadyClimb(n)).Flapping?
  {
    var t := SteadyClimb(n);
    assert t[..2] == [Frozen, Cold] && Changes([Frozen, Cold]) == 1;
    assert t[..3] == [Frozen, Cold, Warm];
    assert [Frozen, Cold, Warm][..2] == [Frozen, Cold];
    assert Changes(t[..3]) == 2;
    if n >= 4 {
      assert t[..4] == [Frozen, Cold, Warm, Hot];
      assert [Frozen, Cold, Warm, Hot][..3] == t[..3];
      assert Changes(t[..4]) == 3;
    }
    assert t[..n] == t;
  }

  ghost predicate FlapsWhileWarming(temps: seq<Temperature>, n: nat) {
    |temps| == n && NeverCools(temps) && TemperatureTrendOf(temps).Flapping?
  }

  /** A one-way climb can be mistaken for flapping with three to five observations, and with no other number. */
  lemma {:induction false} MistakenIffFewObservations(n: nat)
    ensures (exists temps :: FlapsWhileWarming(temps, n)) <==> 3 <= n <= 5
  {
    if 3 <= n <= 5 {
      ClimbFlaps(n);
      assert FlapsWhileWarming(SteadyClimb(n), n);
    }
    forall temps | FlapsWhileWarming(temps, n)
      ensures 3 <= n <= 5
    {
      WarmingNotCooling(temps);
    }
  }

  // ---- reversal ----

  lemma {:induction false} ChangesFront(temps: seq<Temperature>)
    requires |temps| >= 2
    ensures Changes(temps) == (if temps[0] != temps[1] then 1 else 0) + Changes(temps[1..])
  {
    if |temps| > 2 {
      var n := |temps| - 1;
      ChangesFront(temps[..n]);
      assert temps[..n][1..] == temps[1..][..n - 1];
    } else {
      assert |temps[1..]| == 1 && |temps[..1]| == 1;
    }
  }

  lemma {:induction false} ChangesReverse(temps: seq<Temperature>)
    ensures Changes(Reverse(temps)) == Changes(temps)
  {
    ReverseAt(temps);
    if |temps| >= 2 {
      var rest := Reverse(temps[1..]);
      ChangesReverse(temps[1..]);
      ChangesFront(temps);
      ReverseAt(temps[1..]);
      assert (rest + [temps[0]])[..|rest|] == rest;
    }
  }

  function MirrorTemperature(t: TemperatureTrend): TemperatureTrend {
    match t
    case Stable(at) => Stable(at)
    case Warming(from, upTo) => Cooling(upTo, from)
    case Cooling(from, downTo) => Warming(downTo, from)
    case Flapping => Flapping
  }

  lemma {:induction false} TemperatureTrendMirrors(temps: seq<Temperature>)
    ensures TemperatureTrendOf(Reverse(temps)) == MirrorTemperature(TemperatureTrendOf(temps))
  {
    ReverseAt(temps);
    ChangesReverse(temps);
  }

  lemma Associate<T>(a: seq<T>, b: seq<T>, c: seq<T>)
    ensures (a + b) + c == a + (b + c)
  {
  }

  lemma SeenConcatNext(a: seq<Snapshot>, b: seq<Snapshot>, last: Snapshot, region: AddressRange)
    requires Seen(a + b, region) == Seen(a, region) + Seen(b, region)
    ensures Seen(a + (b + [last]), region) == Seen(a, region) + Seen(b + [last], region)
  {
    Associate(a, b, [last]);
    Associate(Seen(a, region), Seen(b, region), Observed(last, region));
  }

  /** If every snapshot has the region, the history holds the region's first sample of each, in order. */
  lemma {:induction false} SeenEach(snapshots: seq<Snapshot>, region: AddressRange)
    requires forall i :: 0 <= i < |snapshots| ==> Find(snapshots[i].samples, region).Some?
    ensures |Seen(snapshots, region)| == |snapshots|
    ensures forall i :: 0 <= i < |snapshots| ==> Some(Seen(snapshots, region)[i]) == Find(snapshots[i].samples, region)
  {
    if snapshots != [] {
      SeenEach(snapshots[..|snapshots| - 1], region);
    }
  }

  /** A snapshot without the region leaves no trace. */
  lemma {:induction false} SeenSkips(before: seq<Snapshot>, snapshot: Snapshot, later: seq<Snapshot>, region: AddressRange)
    requires forall i :: 0 <= i < |snapshot.samples| ==> snapshot.samples[i].range != region
    ensures Seen(before + [snapshot] + later, region) == Seen(before + later, region)
  {
    SeenConcat(before + [snapshot], later, region);
    SeenConcat(before, later, region);
  }

  lemma {:induction false} SeenConcat(a: seq<Snapshot>, b: seq<Snapshot>, region: AddressRange)
    ensures Seen(a + b, region) == Seen(a, region) + Seen(b, region)
  {
    if b == [] {
      assert a + b == a;
    } else {
      var front, last := b[..|b| - 1], b[|b| - 1];
      SeenConcat(a, front, region);
      assert b == front + [last];
      SeenConcatNext(a, front, last, region);
    }
  }

  lemma {:induction false} SeenReverse(snapshots: seq<Snapshot>, region: AddressRange)
    ensures Seen(Reverse(snapshots), region) == Reverse(Seen(snapshots, region))
  {
    if snapshots != [] {
      var head, tail := [snapshots[0]], snapshots[1..];
      SeenReverse(tail, region);
      SeenConcat(Reverse(tail), head, region);
      SeenConcat(head, tail, region);
      assert head + tail == snapshots;
      ReverseConcat(Seen(head, region), Seen(tail, region));
    }
  }

  /** A history played backwards has, for every region, the mirrored temperature trend and access trend. */
  lemma {:induction false} HistoryMirrors(snapshots: seq<Snapshot>, region: AddressRange)
    ensures TemperatureTrendOf(Temperatures(Seen(Reverse(snapshots), region)))
      == MirrorTemperature(TemperatureTrendOf(Temperatures(Seen(snapshots, region))))
    ensures AT.AccessTrendOf(Counts(Seen(Reverse(snapshots), region)))
      == AT.Mirror(AT.AccessTrendOf(Counts(Seen(snapshots, region))))
  {
    var seen := Seen(snapshots, region);
    SeenReverse(snapshots, region);
    ReadingsReverse(seen);
    TemperatureTrendMirrors(Temperatures(seen));
    AT.AccessTrendMirrors(Counts(seen));
  }

  lemma {:induction false} ReadingsReverse(seen: seq<Sample>)
    ensures Temperatures(Reverse(seen)) == Reverse(Temperatures(seen))
    ensures Counts(Reverse(seen)) == Reverse(Counts(seen))
  {
    if seen != [] {
      var rest, last := seen[1..], seen[0];
      ReadingsReverse(rest);
      ReadingsFront(seen);
    }
  }

  lemma {:induction false} ReadingsFront(seen: seq<Sample>)
    requires seen != []
    ensures Temperatures(seen) == [seen[0].temperature] + Temperatures(seen[1..])
    ensures Counts(seen) == [seen[0].accessCount] + Counts(seen[1..])
  {
    if |seen| > 1 {
      var n := |seen| - 1;
      ReadingsFront(seen[..n]);
      assert seen[..n][1..] == seen[1..][..n - 1];
    }
  }
}
