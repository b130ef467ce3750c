/** The receiving end of the event bus: it checks sequence ids and fans records out to the handlers. */
module EventMultiplexer {
  import opened Sequences

  datatype Violation =
    | Reordered(current: nat, last: nat)   // rule event_ordering_monotonic, critical
    | Gap(expected: nat, got: nat, size: nat)   // rule event_ordering_gap, error

  /** What one received id raises; `last == 0` stands for "nothing received yet". */
  function Check(last: nat, current: nat): seq<Violation> {
    if last > 0 && current <= last then [Reordered(current, last)]
    else if last > 0 && current > last + 1 then [Gap(last + 1, current, current - last - 1)]
    else []
  }

  /** Everything a fresh multiplexer raises while it receives `ids`. */
  function Report(ids: seq<nat>): seq<Violation> {
    if |ids| < 2 then [] else Report(ids[..|ids| - 1]) + Check(ids[|ids| - 2], ids[|ids| - 1])
  }

  /** How many of the first `n` handlers fail on a record. */
  function Failing(fails: (nat, nat) -> bool, id: nat, n: nat): nat {
    if n == 0 then 0 else Failing(fails, id, n - 1) + (if fails(n - 1, id) then 1 else 0)
  }

  class EventMultiplexer {
    var lastSequenceId: nat
    var violations: seq<Violation>
    var delivered: seq<seq<nat>>   // by handler
    var warnings: nat

    constructor (handlers: nat)
      ensures lastSequenceId == 0 && violations == [] && warnings == 0
      ensures |delivered| == handlers && forall h :: 0 <= h < handlers ==> delivered[h] == []
    {
      lastSequenceId, violations, warnings := 0, [], 0;
      delivered := seq(handlers, _ => []);
    }

    method VerifyOrdering(current: nat)
      modifies this`lastSequenceId, this`violations
      ensures lastSequenceId == current
      ensures violations == old(violations) + Check(old(lastSequenceId), current)
    {
      var last := lastSequenceId;
      if last > 0 {
        if current <= last {
          violations := violations + [Reordered(current, last)];
        } else if current > last + 1 {
          violations := violations + [Gap(last + 1, current, current - last - 1)];
        }
      }
      lastSequenceId := current;
    }

    /** Hand one record to every handler; a handler that fails is logged and does not stop the others. */
    method Dispatch(id: nat, fails: (nat, nat) -> bool)
      modifies this`delivered, this`warnings
      ensures |delivered| == |old(delivered)|
      ensures forall h :: 0 <= h < |delivered| ==> delivered[h] == old(delivered)[h] + [id]
      ensures warnings == old(warnings) + Failing(fails, id, |delivered|)
    {
      var h := 0;
      while h < |delivered|
        invariant h <= |delivered| == |old(delivered)|
        invariant forall k :: 0 <= k < h ==> delivered[k] == old(delivered)[k] + [id]
        invariant forall k :: h <= k < |delivered| ==> delivered[k] == old(delivered)[k]
        invariant warnings == old(warnings) + Failing(fails, id, h)
      {
        delivered := delivered[h := delivered[h] + [id]];
        if fails(h, id) {
          warnings := warnings + 1;
        }
        h := h + 1;
      }
    }

    /** The receive loop: every handler sees every record in channel order, whichever handlers fail. */
    method Run(records: seq<nat>, fails: (nat, nat) -> bool)
      requires lastSequenceId == 0 && violations == []
      modifies this
      ensures violations == Report(records)
      ensures |delivered| == |old(delivered)|
      ensures forall h :: 0 <= h < |delivered| ==> delivered[h] == old(delivered)[h] + records
      ensures lastSequenceId == if records == [] then 0 else records[|records| - 1]
    {
      var k := 0;
      while k < |records|
        invariant k <= |records| && |delivered| == |old(delivered)|
        invariant violations == Report(records[..k])
        invariant lastSequenceId == if k == 0 then 0 else records[k - 1]
        invariant forall h :: 0 <= h < |delivered| ==> delivered[h] == old(delivered)[h] + records[..k]
      {
        VerifyOrdering(records[k]);
        Dispatch(records[k], fails);
        assert records[..k + 1] == records[..k] + [records[k]];
        assert records[..k + 1][..k] == records[..k];
        k := k + 1;
      }
      assert records[..k] == records;
    }
  }

  // ---- what the report means ----

  /** The id after position `i` is not the successor of a positive id at `i`. */
  predicate BreakAt(ids: seq<nat>, i: int)
    requires 0 <= i < |ids| - 1
  {
    ids[i] > 0 && ids[i + 1] != ids[i] + 1
  }

  ghost function Breaks(ids: seq<nat>): set<int> {
    set i | 0 <= i < |ids| - 1 && BreakAt(ids, i)
  }

  lemma BreaksStep(ids: seq<nat>)
    requires |ids| >= 2
    ensures |Breaks(ids)| == |Breaks(ids[..|ids| - 1])| + if BreakAt(ids, |ids| - 2) then 1 else 0
  {
    var front, last := ids[..|ids| - 1], |ids| - 2;
    forall i | 0 <= i < last ensures BreakAt(ids, i) == BreakAt(front, i) {
    }
    assert Breaks(ids) == Breaks(front) + if BreakAt(ids, last) then {last} else {};
    assert last !in Breaks(front);
  }

  /** One violation is raised for every break and none otherwise. */
  lemma {:induction false} ReportCountsBreaks(ids: seq<nat>)
    ensures |Report(ids)| == |Breaks(ids)|
  {
    if |ids| >= 2 {
      ReportCountsBreaks(ids[..|ids| - 1]);
      BreaksStep(ids);
    } else {
      assert Breaks(ids) == {};
    }
  }

  /** The violation names the pair of ids at positions `i` and `i + 1`. */
  predicate Names(v: Violation, ids: seq<nat>, i: nat)
    requires i < |ids| - 1
  {
    match v
    case Reordered(current, last) => last == ids[i] && current == ids[i + 1] && current <= last
    case Gap(expected, got, size) => expected == ids[i] + 1 && got == ids[i + 1] && got == expected + size && size > 0
  }

  /** Every violation raised names a break: the two ids it is about, and how many are missing between them. */
  lemma {:induction false} ViolationsNameBreaks(ids: seq<nat>, k: nat)
    requires k < |Report(ids)|
    ensures exists i: nat :: i < |ids| - 1 && BreakAt(ids, i) && Names(Report(ids)[k], ids, i)
  {
    var front := ids[..|ids| - 1];
    if k < |Report(front)| {
      ViolationsNameBreaks(front, k);
      var i: nat :| i < |front| - 1 && BreakAt(front, i) && Names(Report(front)[k], front, i);
      assert BreakAt(ids, i) && Names(Report(ids)[k], ids, i);
    } else {
      assert BreakAt(ids, |ids| - 2) && Names(Report(ids)[k], ids, |ids| - 2);
    }
  }

  ghost predicate Positive(ids: seq<nat>) {
    forall i :: 0 <= i < |ids| ==> 0 < ids[i]
  }

  /** `first, first + 1, first + 2, ...` */
  ghost predicate Contiguous(ids: seq<nat>) {
    forall i :: 0 <= i < |ids| ==> ids[i] == ids[0] + i
  }

  lemma {:induction false} ReportSilent(ids: seq<nat>)
    ensures Report(ids) == [] <==> forall i :: 0 <= i < |ids| - 1 ==> !BreakAt(ids, i)
  {
    ReportCountsBreaks(ids);
    if Report(ids) == [] {
      forall i | 0 <= i < |ids| - 1 ensures !BreakAt(ids, i) {
        assert i !in Breaks(ids);
      }
    } else {
      var i :| i in Breaks(ids);
    }
  }

  /** An id of 0, after which the check is off, is followed by 1 if by anything. */
  ghost predicate ZerosLeadToOne(ids: seq<nat>) {
    forall i :: 0 <= i < |ids| - 1 && ids[i] == 0 ==> ids[i + 1] == 1
  }

  lemma {:induction false} StepByStep(ids: seq<nat>, n: nat)
    requires n < |ids| && forall i :: 0 <= i < n ==> ids[i + 1] == ids[i] + 1
    ensures ids[n] == ids[0] + n
  {
    if n > 0 {
      StepByStep(ids, n - 1);
      assert ids[n - 1 + 1] == ids[n - 1] + 1;
    }
  }

  /**
   * An id of 0 switches the check off for the next record. Silence still means one contiguous ascending run
   * exactly if no zero is followed by an id other than 1.
   */
  lemma {:induction false} ContiguousIffSilent(ids: seq<nat>)
    ensures Contiguous(ids) <==> Report(ids) == [] && ZerosLeadToOne(ids)
  {
    ReportSilent(ids);
    if Contiguous(ids) {
      forall i | 0 <= i < |ids| - 1 ensures ids[i + 1] == ids[i] + 1 {
        assert ids[i] == ids[0] + i;
      }
    }
    if Report(ids) == [] && ZerosLeadToOne(ids) {
      forall i | 0 <= i < |ids| - 1 ensures ids[i + 1] == ids[i] + 1 {
        assert !BreakAt(ids, i);
      }
      forall i | 0 <= i < |ids| ensures ids[i] == ids[0] + i {
        StepByStep(ids, i);
      }
    }
  }

  /** For ids of an emitter, which start at 1, silence means exactly one contiguous ascending run. */
  lemma {:induction false} SilentIffContiguous(ids: seq<nat>)
    requires Positive(ids)
    ensures Report(ids) == [] <==> Contiguous(ids)
  {
    ContiguousIffSilent(ids);
  }

  lemma ZeroHidesAGap()
    ensures Report([1, 2, 0, 9]) == [Reordered(0, 2)]
    ensures Report([0, 9]) == []
  {
    assert [1, 2, 0, 9][..3] == [1, 2, 0] && [1, 2, 0][..2] == [1, 2] && [1, 2][..1] == [1];
    assert [0, 9][..1] == [0];
  }

  // ---- reorderings and gap sizes ----

  ghost predicate ReportsReordering(ids: seq<nat>) {
    exists k :: 0 <= k < |Report(ids)| && Report(ids)[k].Reordered?
  }

  /** The sizes named by the gap violations, added up. */
  function GapTotal(report: seq<Violation>): nat {
    if report == [] then 0
    else GapTotal(report[..|report| - 1]) + (var v := report[|report| - 1]; if v.Gap? then v.size else 0)
  }

  lemma ReportStep(ids: seq<nat>)
    requires |ids| >= 2
    ensures var front := ids[..|ids| - 1];
      var check := Check(ids[|ids| - 2], ids[|ids| - 1]);
      && (ReportsReordering(ids) <==> ReportsReordering(front) || (check != [] && check[0].Reordered?))
      && GapTotal(Report(ids)) == GapTotal(Report(front)) + GapTotal(check)
  {
    var front, check := ids[..|ids| - 1], Check(ids[|ids| - 2], ids[|ids| - 1]);
    if check == [] {
      assert Report(ids) == Report(front);
    } else {
      assert check == [check[0]] && check[..0] == [];
      assert Report(ids)[..|Report(ids)| - 1] == Report(front);
      assert Report(ids)[|Report(front)|] == check[0];
      if ReportsReordering(front) {
        var k :| 0 <= k < |Report(front)| && Report(front)[k].Reordered?;
        assert Report(ids)[k].Reordered?;
      }
    }
  }

  lemma AscendingStep(ids: seq<nat>)
    requires |ids| >= 2
    ensures Ascending(ids) <==> Ascending(ids[..|ids| - 1]) && ids[|ids| - 2] < ids[|ids| - 1]
  {
    var front := ids[..|ids| - 1];
    if Ascending(front) && ids[|ids| - 2] < ids[|ids| - 1] {
      forall i, j | 0 <= i < j < |ids| ensures ids[i] < ids[j] {
        assert j < |front| ==> front[i] < front[j];
        assert i < |ids| - 2 ==> front[i] < front[|ids| - 2];
      }
    }
  }

  /** A reordering is reported exactly when the ids are not in ascending order. */
  lemma {:induction false} ReorderingIffNotAscending(ids: seq<nat>)
    requires Positive(ids)
    ensures ReportsReordering(ids) <==> !Ascending(ids)
  {
    if |ids| >= 2 {
      ReorderingIffNotAscending(ids[..|ids| - 1]);
      ReportStep(ids);
      AscendingStep(ids);
    }
  }

  /** For ascending ids the reported gaps add up to the number of ids missing between the first and the last. */
  lemma {:induction false} GapsAddUp(ids: seq<nat>)
    requires Positive(ids) && Ascending(ids) && ids != []
    ensures GapTotal(Report(ids)) == ids[|ids| - 1] - ids[0] - (|ids| - 1)
  {
    if |ids| >= 2 {
      var front := ids[..|ids| - 1];
      GapsAddUp(front);
      ReportStep(ids);
      assert ids[|ids| - 2] < ids[|ids| - 1];
      var check := Check(ids[|ids| - 2], ids[|ids| - 1]);
      if check != [] {
        assert check[..0] == [];
      }
    }
  }
}
