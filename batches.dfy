/** main's batch loop: the host list is cut into consecutive slices of at most the batch
    size (one slice when there is none), each slice is run by copyAndExecute, and the
    return value collects the statuses and unreachable hosts of every slice. The batch size
    comes from --batchsize or, failing that, from the open-file limit (update_max_threads). */
module Batches {
  import opened Wrappers

  /** What the batch loop uses of one copyAndExecute call: the values of the status map and
      the unreachable hosts. */
  datatype Outcome = Outcome(statuses: seq<int>, bad: seq<string>)

  // ---------------------------------------------------------------------------------------
  // Slices

  /** Where the slice starting at `begin` ends, for a host list of length `n`. */
  function BatchEnd(begin: nat, n: nat, maxThds: nat): (e: nat)
    requires begin < n
    ensures begin < e <= n
    ensures maxThds > 0 ==> e - begin <= maxThds
    ensures e < n ==> maxThds > 0 && e - begin == maxThds
  {
    if maxThds == 0 || maxThds >= n - begin then n else begin + maxThds
  }

  /** The slices main runs, from `begin` on, in order. */
  function Batches(clist: seq<string>, begin: nat, maxThds: nat): seq<seq<string>>
    decreases |clist| - begin
  {
    if begin >= |clist| then []
    else
      var e := BatchEnd(begin, |clist|, maxThds);
      [clist[begin..e]] + Batches(clist, e, maxThds)
  }

  function Flatten(bs: seq<seq<string>>): seq<string>
  {
    if |bs| == 0 then [] else bs[0] + Flatten(bs[1..])
  }

  /** The slices are non-empty, together they are the host list in order, none is longer
      than the batch size, all but the last have exactly the batch size, and without a batch
      size there is a single slice. */
  lemma {:induction false} BatchesTile(clist: seq<string>, begin: nat, maxThds: nat)
    requires begin <= |clist|
    ensures var bs := Batches(clist, begin, maxThds);
      Flatten(bs) == clist[begin..]
      && (forall j :: 0 <= j < |bs| ==> |bs[j]| > 0 && (maxThds > 0 ==> |bs[j]| <= maxThds))
      && (forall j :: 0 <= j < |bs| - 1 ==> |bs[j]| == maxThds)
      && (maxThds == 0 && begin < |clist| ==> |bs| == 1)
    decreases |clist| - begin
  {
    if begin < |clist| {
      var e := BatchEnd(begin, |clist|, maxThds);
      BatchesTile(clist, e, maxThds);
      var bs := Batches(clist, begin, maxThds);
      assert bs[1..] == Batches(clist, e, maxThds);
      assert clist[begin..] == clist[begin..e] + clist[e..];
      if maxThds == 0 {
        assert Batches(clist, e, maxThds) == [];
      }
    }
  }

  lemma MulNonNegative(a: int, b: int)
    requires a >= 0 && b >= 0
    ensures a * b >= 0
  {
  }

  lemma DivIs(x: int, m: int, q: int)
    requires m > 0 && m * q <= x < m * q + m
    ensures x / m == q
  {
    var d := x / m;
    var r := x % m;
    assert x == m * d + r && 0 <= r < m;
    if d < q {
      MulNonNegative(m, q - d - 1);
    } else if d > q {
      MulNonNegative(m, d - q - 1);
    }
  }

  /** With a batch size, the number of slices is the number of hosts divided by it, rounded
      up. */
  lemma {:induction false} BatchCount(clist: seq<string>, begin: nat, maxThds: nat)
    requires begin <= |clist| && maxThds > 0
    ensures |Batches(clist, begin, maxThds)| == (|clist| - begin + maxThds - 1) / maxThds
    decreases |clist| - begin
  {
    var x := |clist| - begin + maxThds - 1;
    if begin < |clist| {
      var e := BatchEnd(begin, |clist|, maxThds);
      BatchCount(clist, e, maxThds);
      var q := (|clist| - e + maxThds - 1) / maxThds;
      assert |clist| - e + maxThds - 1 == maxThds * q + (|clist| - e + maxThds - 1) % maxThds;
      DivIs(x, maxThds, q + 1);
    } else {
      DivIs(x, maxThds, 0);
    }
  }

  // ---------------------------------------------------------------------------------------
  // The return value

  /** Python's `max` of a non-empty list. */
  function MaxSeq(xs: seq<int>): (m: int)
    requires |xs| > 0
    ensures m in xs && forall x :: x in xs ==> x <= m
  {
    if |xs| == 1 then xs[0]
    else
      var r := MaxSeq(xs[1..]);
      assert forall x :: x in xs ==> x == xs[0] || x in xs[1..];
      if xs[0] >= r then xs[0] else r
  }

  /** `returnValue and 1`: main's exit code. */
  function ExitCode(returnValue: int): (code: int)
    ensures code == 0 <==> returnValue == 0
    ensures code == 0 || code == 1
  {
    if returnValue == 0 then 0 else 1
  }

  /** A slice ran cleanly: every status 0 and no unreachable host. */
  predicate Clean(o: Outcome)
  {
    |o.bad| == 0 && forall s :: s in o.statuses ==> s == 0
  }

  /** The return value after a slice, as written: 1 if a host was unreachable, then the
      maximum of the statuses and the value so far. */
  function AfterBatchAsWritten(returnValue: int, o: Outcome): int
  {
    MaxSeq(o.statuses + [if |o.bad| > 0 then 1 else returnValue])
  }

  function ReturnValueAsWritten(outs: seq<Outcome>): int
  {
    if |outs| == 0 then 0 else AfterBatchAsWritten(ReturnValueAsWritten(outs[..|outs| - 1]), outs[|outs| - 1])
  }

  /** As written, the exit code is 0 exactly when no host was unreachable and no status was
      positive: a negative status (a child killed by a signal) counts as success. */
  lemma {:induction false} AsWrittenExit(outs: seq<Outcome>)
    ensures ReturnValueAsWritten(outs) >= 0
    ensures ExitCode(ReturnValueAsWritten(outs)) == 0
      <==> forall o :: o in outs ==> |o.bad| == 0 && forall s :: s in o.statuses ==> s <= 0
  {
    if |outs| > 0 {
      var front := outs[..|outs| - 1];
      var o := outs[|outs| - 1];
      AsWrittenExit(front);
      assert outs == front + [o];
      var xs := o.statuses + [if |o.bad| > 0 then 1 else ReturnValueAsWritten(front)];
      assert forall s :: s in o.statuses ==> s in xs;
      assert xs[|xs| - 1] in xs;
    }
  }

  /** A host killed by signal 9 alone: the run exits 0. */
  lemma SignalMasked()
    ensures var outs := [Outcome([-9], [])];
      !Clean(outs[0]) && ExitCode(ReturnValueAsWritten(outs)) == 0
  {
    var outs := [Outcome([-9], [])];
    assert outs[..0] == [];
    assert -9 in outs[0].statuses;
  }

  /** The statuses as they should count: a negative status (killed by a signal) is a failure. */
  function Failures(statuses: seq<int>): (r: seq<int>)
    ensures |r| == |statuses|
    ensures forall i :: 0 <= i < |statuses| ==> r[i] >= 0 && (r[i] == 0 <==> statuses[i] == 0)
    ensures forall i :: 0 <= i < |statuses| && statuses[i] >= 0 ==> r[i] == statuses[i]
  {
    seq(|statuses|, i requires 0 <= i < |statuses| => if statuses[i] < 0 then 1 else statuses[i])
  }

  /** The return value after a slice, corrected: as written, with negative statuses counted
      as failures. */
  function AfterBatch(returnValue: int, o: Outcome): int
  {
    MaxSeq(Failures(o.statuses) + [if |o.bad| > 0 then 1 else returnValue])
  }

  function ReturnValue(outs: seq<Outcome>): int
  {
    if |outs| == 0 then 0 else AfterBatch(ReturnValue(outs[..|outs| - 1]), outs[|outs| - 1])
  }

  /** One slice keeps the corrected return value non-negative, and zero exactly when it was
      zero and the slice ran cleanly. */
  lemma AfterBatchZero(returnValue: int, o: Outcome)
    requires returnValue >= 0
    ensures AfterBatch(returnValue, o) >= 0
    ensures AfterBatch(returnValue, o) == 0 <==> returnValue == 0 && Clean(o)
  {
    var fs := Failures(o.statuses);
    var xs := fs + [if |o.bad| > 0 then 1 else returnValue];
    assert xs[|xs| - 1] in xs;
    if AfterBatch(returnValue, o) == 0 {
      forall s | s in o.statuses ensures s == 0 {
        var i :| 0 <= i < |o.statuses| && o.statuses[i] == s;
        assert xs[i] in xs;
      }
    }
    if returnValue == 0 && Clean(o) {
      forall x | x in xs ensures x == 0 {
        var i :| 0 <= i < |xs| && xs[i] == x;
        if i < |fs| {
          assert o.statuses[i] in o.statuses;
        }
      }
    }
  }

  /** Corrected, the exit code is 0 exactly when every slice ran cleanly. */
  lemma {:induction false} ExitExactly(outs: seq<Outcome>)
    ensures ReturnValue(outs) >= 0
    ensures ExitCode(ReturnValue(outs)) == 0 <==> forall o :: o in outs ==> Clean(o)
  {
    if |outs| > 0 {
      var front := outs[..|outs| - 1];
      var o := outs[|outs| - 1];
      ExitExactly(front);
      assert outs == front + [o];
      AfterBatchZero(ReturnValue(front), o);
    }
  }

  /** Where no run was killed by a signal, the corrected return value is the one main
      computes: the correction changes nothing else. */
  lemma {:induction false} CorrectedAgrees(outs: seq<Outcome>)
    requires forall o :: o in outs ==> forall s :: s in o.statuses ==> s >= 0
    ensures ReturnValue(outs) == ReturnValueAsWritten(outs)
  {
    if |outs| > 0 {
      var front := outs[..|outs| - 1];
      var o := outs[|outs| - 1];
      assert forall x :: x in front ==> x in outs;
      CorrectedAgrees(front);
      assert forall i :: 0 <= i < |o.statuses| ==> o.statuses[i] in o.statuses;
      assert Failures(o.statuses) == o.statuses;
    }
  }

  /** The slices' outcomes, in order. */
  function Outcomes(batches: seq<seq<string>>, run: seq<string> -> Outcome): (r: seq<Outcome>)
    ensures |r| == |batches| && forall j :: 0 <= j < |batches| ==> r[j] == run(batches[j])
  {
    seq(|batches|, j requires 0 <= j < |batches| => run(batches[j]))
  }

  lemma ReturnValueSnoc(batches: seq<seq<string>>, cells: seq<string>, run: seq<string> -> Outcome)
    ensures ReturnValueAsWritten(Outcomes(batches + [cells], run))
      == AfterBatchAsWritten(ReturnValueAsWritten(Outcomes(batches, run)), run(cells))
  {
    assert Outcomes(batches + [cells], run)[..|batches|] == Outcomes(batches, run);
  }

  lemma BatchesStep(clist: seq<string>, batches: seq<seq<string>>, begin: nat, maxThds: nat)
    requires begin < |clist|
    requires batches + Batches(clist, begin, maxThds) == Batches(clist, 0, maxThds)
    ensures var e := BatchEnd(begin, |clist|, maxThds);
      (batches + [clist[begin..e]]) + Batches(clist, e, maxThds) == Batches(clist, 0, maxThds)
      && (e == |clist| ==> batches + [clist[begin..e]] == Batches(clist, 0, maxThds))
  {
    var e := BatchEnd(begin, |clist|, maxThds);
    var rest := Batches(clist, e, maxThds);
    assert Batches(clist, begin, maxThds) == [clist[begin..e]] + rest;
    assert (batches + [clist[begin..e]]) + rest == batches + ([clist[begin..e]] + rest);
    if e == |clist| {
      assert rest == [];
      assert batches + [clist[begin..e]] == (batches + [clist[begin..e]]) + rest;
    }
  }

  /** main's loop over the slices when no vmstat sampling is asked for: `run` is
      copyAndExecute on a slice. Returns the slices run and the return value. */
  method RunBatches(clist: seq<string>, maxThds: nat, run: seq<string> -> Outcome)
    returns (batches: seq<seq<string>>, returnValue: int)
    requires |clist| > 0
    ensures batches == Batches(clist, 0, maxThds)
    ensures returnValue == ReturnValueAsWritten(Outcomes(batches, run))
  {
    batches := [];
    returnValue := 0;
    var batchBegin := 0;
    while true
      invariant batchBegin < |clist|
      invariant batches + Batches(clist, batchBegin, maxThds) == Batches(clist, 0, maxThds)
      invariant returnValue == ReturnValueAsWritten(Outcomes(batches, run))
      decreases |clist| - batchBegin
    {
      var batchEnd := if maxThds == 0 || maxThds >= |clist| - batchBegin then |clist| else batchBegin + maxThds;
      var cells := clist[batchBegin..batchEnd];
      var o := run(cells);
      if |o.bad| > 0 {
        returnValue := 1;
      }
      returnValue := MaxSeq(o.statuses + [returnValue]);
      ReturnValueSnoc(batches, cells, run);
      BatchesStep(clist, batches, batchBegin, maxThds);
      batches := batches + [cells];
      if batchEnd == |clist| {
        return;
      }
      batchBegin := batchEnd;
    }
  }

  // ---------------------------------------------------------------------------------------
  // vmstat sampling

  /** One copyAndExecute call of the vmstat loop: the slice, and the sample number appended
      to the vmstat command (1 for the boot-time figures, 2 for a delayed sample). */
  datatype Sample = Sample(cells: seq<string>, sampleCount: nat)

  /** `max(statusMap.values()) > 0`. */
  predicate Failed(o: Outcome)
  {
    exists s :: s in o.statuses && s > 0
  }

  /** The outcome of each call; `run` gets the call's position, as successive samples differ. */
  function Runs(samples: seq<Sample>, run: (nat, Sample) -> Outcome): (r: seq<Outcome>)
    ensures |r| == |samples| && forall k :: 0 <= k < |samples| ==> r[k] == run(k, samples[k])
  {
    seq(|samples|, k requires 0 <= k < |samples| => run(k, samples[k]))
  }

  lemma RunsSnoc(samples: seq<Sample>, s: Sample, run: (nat, Sample) -> Outcome)
    ensures Runs(samples + [s], run) == Runs(samples, run) + [run(|samples|, s)]
  {
  }

  lemma ReturnValueRunsSnoc(samples: seq<Sample>, s: Sample, run: (nat, Sample) -> Outcome)
    ensures ReturnValueAsWritten(Runs(samples + [s], run))
      == AfterBatchAsWritten(ReturnValueAsWritten(Runs(samples, run)), run(|samples|, s))
  {
    RunsSnoc(samples, s, run);
    assert Runs(samples + [s], run)[..|samples|] == Runs(samples, run);
  }

  /** The number of rounds over the slices with a sample count; without one (a negative
      count) sampling goes on until interrupted. */
  function Rounds(vmstatCount: int): nat
  {
    if vmstatCount >= 1 then vmstatCount else 1
  }

  /** The slice sampled by call `k` of the rounds over `n` slices: `k` less whole rounds. */
  function SliceOf(n: nat, k: nat): (j: nat)
    requires n > 0
    ensures j < n
    decreases k
  {
    if k < n then k else SliceOf(n, k - n)
  }

  lemma {:induction false} SliceOfRounds(n: nat, k: nat, q: nat)
    requires n > 0 && n * q <= k < n * q + n
    ensures SliceOf(n, k) == k - n * q
    decreases q
  {
    if q > 0 {
      assert n * q == n * (q - 1) + n;
      SliceOfRounds(n, k - n, q - 1);
    }
  }

  lemma SliceOfIsMod(n: nat, k: nat)
    requires n > 0
    ensures SliceOf(n, k) == k % n
  {
    var q := k / n;
    assert k == n * q + k % n && 0 <= k % n < n;
    SliceOfRounds(n, k, q);
  }

  /** With a batch size, call `k` samples slice `k mod n` of the `n` slices, the first round
      for the boot-time figures and later rounds for delayed samples. */
  function BatchSample(bs: seq<seq<string>>, k: nat): Sample
    requires |bs| > 0
  {
    Sample(bs[SliceOf(|bs|, k)], if k < |bs| then 1 else 2)
  }

  /** The calls made by `r` full rounds over `n` slices. */
  function Calls(n: nat, r: nat): nat
  {
    if r == 0 then 0 else Calls(n, r - 1) + n
  }

  lemma {:induction false} CallsIs(n: nat, r: nat)
    ensures Calls(n, r) == n * r
  {
    if r > 0 {
      CallsIs(n, r - 1);
      assert n * r == n * (r - 1) + n;
    }
  }

  lemma {:induction false} CallsBound(n: nat, r: nat, j: nat, rounds: nat)
    requires j < n && r < rounds
    ensures Calls(n, r) + j < Calls(n, rounds)
    decreases rounds
  {
    if r < rounds - 1 {
      CallsBound(n, r, j, rounds - 1);
    }
  }

  lemma {:induction false} BatchSampleAt(bs: seq<seq<string>>, r: nat, j: nat)
    requires j < |bs|
    ensures BatchSample(bs, Calls(|bs|, r) + j) == Sample(bs[j], if r == 0 then 1 else 2)
  {
    if r > 0 {
      BatchSampleAt(bs, r - 1, j);
    }
  }

  /** The first `m` calls with a batch size. */
  function Schedule(bs: seq<seq<string>>, m: nat): (r: seq<Sample>)
    requires |bs| > 0
    ensures |r| == m
  {
    if m == 0 then [] else Schedule(bs, m - 1) + [BatchSample(bs, m - 1)]
  }

  lemma {:induction false} ScheduleAt(bs: seq<seq<string>>, m: nat)
    requires |bs| > 0
    ensures |Schedule(bs, m)| == m && forall k :: 0 <= k < m ==> Schedule(bs, m)[k] == BatchSample(bs, k)
  {
    if m > 0 {
      ScheduleAt(bs, m - 1);
    }
  }

  /** The next call of the loop with a batch size is the next one of the schedule. */
  lemma ScheduleStep(bs: seq<seq<string>>, samples: seq<Sample>, r: nat, j: nat, s: Sample)
    requires j < |bs| && samples == Schedule(bs, |samples|) && |samples| == Calls(|bs|, r) + j
    requires s == Sample(bs[j], if r == 0 then 1 else 2)
    ensures samples + [s] == Schedule(bs, |samples| + 1)
  {
    BatchSampleAt(bs, r, j);
  }

  /** One slice of the loop with a batch size: its samples are those of `BatchSample`. */
  lemma BatchLoopStep(clist: seq<string>, maxThds: nat, batchBegin: nat, bs: seq<seq<string>>, j: nat)
    requires batchBegin < |clist| && j < |bs|
    requires Batches(clist, batchBegin, maxThds) == bs[j..]
    ensures var e := BatchEnd(batchBegin, |clist|, maxThds);
      bs[j] == clist[batchBegin..e]
      && (e == |clist| <==> j == |bs| - 1)
      && (e < |clist| ==> Batches(clist, e, maxThds) == bs[j + 1..])
  {
    var e := BatchEnd(batchBegin, |clist|, maxThds);
    assert bs[j..][0] == bs[j];
    assert bs[j..][1..] == bs[j + 1..];
    if e < |clist| {
      assert |Batches(clist, e, maxThds)| > 0;
    }
  }

  /** The variables of the loop with a batch size: where the current slice starts, the
      sample count asked of vmstat, and the rounds done. */
  datatype Position = Position(batchBegin: nat, sampleCount: nat, loopCount: nat)

  /** The end of one pass of the loop with a batch size: the next slice of the round, else
      the first slice of the next round while rounds remain, else nothing (the loop ends). */
  function Advance(n: nat, maxThds: nat, vmstatCount: int, p: Position): (r: Option<Position>)
    requires p.batchBegin < n
    ensures r.Some? ==> r.value.batchBegin < n
  {
    var batchEnd := BatchEnd(p.batchBegin, n, maxThds);
    if batchEnd == n then
      if vmstatCount < 0 || p.loopCount + 1 < vmstatCount then Some(Position(0, 2, p.loopCount + 1)) else None
    else
      Some(Position(batchEnd, p.sampleCount, p.loopCount))
  }

  /** The sample of the current slice. */
  function SliceSample(clist: seq<string>, maxThds: nat, p: Position): Sample
    requires p.batchBegin < |clist|
  {
    Sample(clist[p.batchBegin..BatchEnd(p.batchBegin, |clist|, maxThds)], p.sampleCount)
  }

  /** Where the loop with a batch size stands: at slice `j` of the slices `bs`, after `calls`
      calls. */
  ghost predicate At(clist: seq<string>, maxThds: nat, vmstatCount: int, bs: seq<seq<string>>, p: Position,
                     j: nat, calls: nat)
  {
    bs == Batches(clist, 0, maxThds) && |bs| > 0 && p.batchBegin < |clist| && j < |bs|
    && Batches(clist, p.batchBegin, maxThds) == bs[j..]
    && calls == Calls(|bs|, p.loopCount) + j
    && p.sampleCount == (if p.loopCount == 0 then 1 else 2)
    && (vmstatCount >= 0 ==> p.loopCount < Rounds(vmstatCount))
  }

  /** The sample of the current slice is the schedule's sample of slice `j`. */
  lemma SliceIs(clist: seq<string>, maxThds: nat, vmstatCount: int, bs: seq<seq<string>>, p: Position,
                j: nat, calls: nat)
    requires At(clist, maxThds, vmstatCount, bs, p, j, calls)
    ensures SliceSample(clist, maxThds, p) == Sample(bs[j], if p.loopCount == 0 then 1 else 2)
  {
    BatchLoopStep(clist, maxThds, p.batchBegin, bs, j);
  }

  /** After a slice the loop stands at the next slice of the round, or at the first slice of
      the next round. */
  lemma NextAt(clist: seq<string>, maxThds: nat, vmstatCount: int, bs: seq<seq<string>>, p: Position,
               j: nat, calls: nat, q: Position)
    requires At(clist, maxThds, vmstatCount, bs, p, j, calls)
    requires Advance(|clist|, maxThds, vmstatCount, p) == Some(q)
    ensures At(clist, maxThds, vmstatCount, bs, q, if q.batchBegin == 0 then 0 else j + 1, calls + 1)
  {
    BatchLoopStep(clist, maxThds, p.batchBegin, bs, j);
    if BatchEnd(p.batchBegin, |clist|, maxThds) == |clist| {
      assert calls + 1 == Calls(|bs|, p.loopCount + 1);
      assert bs[0..] == bs;
    }
  }

  /** When the loop ends after a slice, it has made every call of its rounds. */
  lemma LastCall(clist: seq<string>, maxThds: nat, vmstatCount: int, bs: seq<seq<string>>, p: Position,
                 j: nat, calls: nat)
    requires At(clist, maxThds, vmstatCount, bs, p, j, calls)
    requires Advance(|clist|, maxThds, vmstatCount, p).None?
    ensures vmstatCount >= 0 && calls + 1 == |bs| * Rounds(vmstatCount)
  {
    BatchLoopStep(clist, maxThds, p.batchBegin, bs, j);
    assert calls + 1 == Calls(|bs|, p.loopCount + 1);
    CallsIs(|bs|, Rounds(vmstatCount));
  }

  /** The loop with a batch size after `|samples|` calls, standing at a slice. */
  ghost predicate OnSchedule(clist: seq<string>, maxThds: nat, vmstatCount: int, limit: nat,
                             run: (nat, Sample) -> Outcome, bs: seq<seq<string>>, p: Position, j: nat,
                             samples: seq<Sample>, returnValue: int)
  {
    At(clist, maxThds, vmstatCount, bs, p, j, |samples|)
    && |samples| <= limit
    && samples == Schedule(bs, |samples|)
    && returnValue == ReturnValueAsWritten(Runs(samples, run))
  }

  /** A pass that does not end the loop keeps it on its schedule: the sample of the current
      slice is the next call of the schedule, its outcome gives the next return value, and
      the loop stands at its next slice. */
  lemma StepOn(clist: seq<string>, maxThds: nat, vmstatCount: int, limit: nat, run: (nat, Sample) -> Outcome,
               bs: seq<seq<string>>, p: Position, j: nat, samples: seq<Sample>, returnValue: int, q: Position)
    requires |samples| < limit
    requires OnSchedule(clist, maxThds, vmstatCount, limit, run, bs, p, j, samples, returnValue)
    requires Advance(|clist|, maxThds, vmstatCount, p) == Some(q)
    ensures var s := SliceSample(clist, maxThds, p);
      OnSchedule(clist, maxThds, vmstatCount, limit, run, bs, q, if q.batchBegin == 0 then 0 else j + 1,
                 samples + [s], AfterBatchAsWritten(returnValue, run(|samples|, s)))
  {
    var s := SliceSample(clist, maxThds, p);
    SliceIs(clist, maxThds, vmstatCount, bs, p, j, |samples|);
    NextAt(clist, maxThds, vmstatCount, bs, p, j, |samples|, q);
    ScheduleStep(bs, samples, p.loopCount, j, s);
    ReturnValueRunsSnoc(samples, s, run);
  }

  /** A pass that ends the loop has made every call of its rounds, the last of them the
      sample of the current slice. */
  lemma StepOff(clist: seq<string>, maxThds: nat, vmstatCount: int, limit: nat, run: (nat, Sample) -> Outcome,
                bs: seq<seq<string>>, p: Position, j: nat, samples: seq<Sample>, returnValue: int)
    requires OnSchedule(clist, maxThds, vmstatCount, limit, run, bs, p, j, samples, returnValue)
    requires Advance(|clist|, maxThds, vmstatCount, p).None?
    ensures var s := SliceSample(clist, maxThds, p);
      vmstatCount >= 0 && |samples| + 1 == |bs| * Rounds(vmstatCount)
      && samples + [s] == Schedule(bs, |samples| + 1)
      && AfterBatchAsWritten(returnValue, run(|samples|, s)) == ReturnValueAsWritten(Runs(samples + [s], run))
  {
    var s := SliceSample(clist, maxThds, p);
    SliceIs(clist, maxThds, vmstatCount, bs, p, j, |samples|);
    LastCall(clist, maxThds, vmstatCount, bs, p, j, |samples|);
    ScheduleStep(bs, samples, p.loopCount, j, s);
    ReturnValueRunsSnoc(samples, s, run);
  }

  /** One pass of the loop with a batch size: sample the current slice once (a host that
      could not be reached makes the return value 1, a failing host raises it to its
      status), then move to the next slice, start the next round, or finish. */
  method SampleSlice(clist: seq<string>, maxThds: nat, vmstatCount: int, run: (nat, Sample) -> Outcome,
                     batchBegin: nat, sampleCount: nat, loopCount: nat, samples: seq<Sample>, returnValue: int)
    returns (batchBegin': nat, sampleCount': nat, loopCount': nat, samples': seq<Sample>, returnValue': int,
             finished: bool)
    requires batchBegin < |clist|
    ensures var p := Position(batchBegin, sampleCount, loopCount);
      var s := SliceSample(clist, maxThds, p);
      samples' == samples + [s]
      && returnValue' == AfterBatchAsWritten(returnValue, run(|samples|, s))
      && (finished <==> Advance(|clist|, maxThds, vmstatCount, p).None?)
      && (!finished ==> Advance(|clist|, maxThds, vmstatCount, p) == Some(Position(batchBegin', sampleCount', loopCount')))
  {
    var batchEnd;
    if maxThds == 0 || maxThds >= |clist| - batchBegin {
      batchEnd := |clist|;
    } else {
      batchEnd := batchBegin + maxThds;
    }
    var cells := clist[batchBegin..batchEnd];
    var o := run(|samples|, Sample(cells, sampleCount));
    returnValue' := returnValue;
    if |o.bad| > 0 {
      returnValue' := 1;
    }
    returnValue' := MaxSeq(o.statuses + [returnValue']);
    samples' := samples + [Sample(cells, sampleCount)];
    batchBegin', sampleCount', loopCount', finished := batchBegin, sampleCount, loopCount, false;
    if batchEnd == |clist| {
      loopCount' := loopCount + 1;
      if vmstatCount < 0 || loopCount' < vmstatCount {
        batchBegin', sampleCount' := 0, 2;
      } else {
        finished := true;
      }
    } else {
      batchBegin' := batchEnd;
    }
  }

  /** main's vmstat loop with a batch size: each slice is sampled once per round, the rounds
      repeat as many times as the vmstat count asks (for ever without one), and `limit` calls
      is where the user interrupts. */
  method SampleBatches(clist: seq<string>, maxThds: nat, vmstatCount: int, run: (nat, Sample) -> Outcome,
                       limit: nat)
    returns (samples: seq<Sample>, returnValue: int, interrupted: bool)
    requires |clist| > 0 && maxThds > 0
    ensures var total := |Batches(clist, 0, maxThds)| * Rounds(vmstatCount);
      (interrupted <==> vmstatCount < 0 || limit < total)
      && |samples| == if interrupted then limit else total
    ensures samples == Schedule(Batches(clist, 0, maxThds), |samples|)
    ensures returnValue == ReturnValueAsWritten(Runs(samples, run))
  {
    ghost var bs := Batches(clist, 0, maxThds);
    BatchesTile(clist, 0, maxThds);
    samples := [];
    returnValue := 0;
    var batchBegin, sampleCount, loopCount := 0, 1, 0;
    ghost var j := 0;
    while true
      invariant OnSchedule(clist, maxThds, vmstatCount, limit, run, bs, Position(batchBegin, sampleCount, loopCount), j,
                           samples, returnValue)
      decreases limit - |samples|
    {
      if |samples| == limit {
        if vmstatCount >= 0 {
          CallsBound(|bs|, loopCount, j, Rounds(vmstatCount));
        }
        CallsIs(|bs|, Rounds(vmstatCount));
        interrupted := true;
        return;
      }
      ghost var p, samples0, returnValue0 := Position(batchBegin, sampleCount, loopCount), samples, returnValue;
      var finished;
      batchBegin, sampleCount, loopCount, samples, returnValue, finished :=
        SampleSlice(clist, maxThds, vmstatCount, run, batchBegin, sampleCount, loopCount, samples, returnValue);
      if finished {
        StepOff(clist, maxThds, vmstatCount, limit, run, bs, p, j, samples0, returnValue0);
        interrupted := false;
        return;
      }
      StepOn(clist, maxThds, vmstatCount, limit, run, bs, p, j, samples0, returnValue0,
             Position(batchBegin, sampleCount, loopCount));
      j := if batchBegin == 0 then 0 else j + 1;
    }
  }

  /** Whether the vmstat loop without a batch size stops after call `k`: a host returned a
      positive status, or the sample count is reached. */
  predicate Stops(k: nat, o: Outcome, vmstatCount: int)
  {
    Failed(o) || (vmstatCount >= 0 && k + 1 >= vmstatCount)
  }

  predicate AnyBad(outs: seq<Outcome>)
  {
    exists o :: o in outs && |o.bad| > 0
  }

  /** main's vmstat loop without a batch size: the whole host list is sampled, first for the
      boot-time figures and then for delayed samples, until a host fails, the sample count
      is reached, or the user interrupts after `limit` calls. The return value takes the
      unreachable hosts of every call and the statuses of the last. */
  method SampleAll(clist: seq<string>, vmstatCount: int, run: (nat, Sample) -> Outcome, limit: nat)
    returns (samples: seq<Sample>, returnValue: int, interrupted: bool)
    ensures forall k :: 0 <= k < |samples| ==> samples[k] == Sample(clist, if k == 0 then 1 else 2)
    ensures forall k :: 0 <= k < |samples| - 1 ==> !Stops(k, run(k, samples[k]), vmstatCount)
    ensures interrupted ==> |samples| == limit
    ensures !interrupted ==> |samples| > 0 && Stops(|samples| - 1, run(|samples| - 1, samples[|samples| - 1]), vmstatCount)
    ensures !interrupted ==>
      returnValue == AfterBatchAsWritten(if AnyBad(Runs(samples, run)) then 1 else 0, run(|samples| - 1, samples[|samples| - 1]))
  {
    samples := [];
    returnValue := 0;
    var sampleCount := 1;
    var loopCount := 0;
    var last := Outcome([], []);
    while true
      invariant |samples| <= limit
      invariant forall k :: 0 <= k < |samples| ==> samples[k] == Sample(clist, if k == 0 then 1 else 2)
      invariant forall k :: 0 <= k < |samples| ==> !Stops(k, run(k, samples[k]), vmstatCount)
      invariant sampleCount == if |samples| == 0 then 1 else 2
      invariant loopCount == if vmstatCount >= 0 then |samples| else 0
      invariant returnValue == if AnyBad(Runs(samples, run)) then 1 else 0
      decreases limit - |samples|
    {
      if |samples| == limit {
        interrupted := true;
        return;
      }
      var s := Sample(clist, sampleCount);
      var o := run(|samples|, s);
      if |o.bad| > 0 {
        returnValue := 1;
      }
      RunsSnoc(samples, s, run);
      samples := samples + [s];
      last := o;
      if Failed(o) {
        break;
      }
      if vmstatCount >= 0 {
        loopCount := loopCount + 1;
        if loopCount >= vmstatCount {
          break;
        }
      }
      sampleCount := 2;
    }
    returnValue := MaxSeq(last.statuses + [returnValue]);
    interrupted := false;
  }

  // ---------------------------------------------------------------------------------------
  // update_max_threads

  const FdsPerCell := 7
  const ReservedFds := 10

  /** update_max_threads: whether the batch size is set from the open-file limit `fdLimit`
      (`None` when it cannot be read), and the batch size after the call. Python's `//` by a
      positive divisor floors, as Dafny's `/` does. */
  function UpdateMaxThreads(maxThds: int, serial: bool, fdLimit: Option<int>): (r: (bool, int))
  {
    if maxThds != 0 || serial then (false, maxThds)
    else if fdLimit.None? then (false, maxThds)
    else
      var t := (fdLimit.value - ReservedFds) / FdsPerCell;
      if t < 1 then (false, maxThds) else (true, t)
  }

  /** The batch size is set exactly when none was given, serial mode is off, the limit is
      known and leaves room for at least one host; it is then the largest number of hosts
      whose 7 descriptors each fit beside the 10 reserved ones. Otherwise nothing changes. */
  lemma UpdateMaxThreadsExactly(maxThds: int, serial: bool, fdLimit: Option<int>)
    ensures var (updated, m) := UpdateMaxThreads(maxThds, serial, fdLimit);
      (updated <==> maxThds == 0 && !serial && fdLimit.Some? && fdLimit.value >= ReservedFds + FdsPerCell)
      && (!updated ==> m == maxThds)
      && (updated ==> m >= 1 && ReservedFds + FdsPerCell * m <= fdLimit.value < ReservedFds + FdsPerCell * (m + 1))
  {
    if maxThds == 0 && !serial && fdLimit.Some? {
      var t := (fdLimit.value - ReservedFds) / FdsPerCell;
      assert fdLimit.value - ReservedFds == FdsPerCell * t + (fdLimit.value - ReservedFds) % FdsPerCell;
    }
  }
}
