/** copyAndExecute's collection of per-host results: every host of a batch runs its stage
    pipeline, its status and output are recorded under its name, and the hosts its runs
    marked go on the unreachable and retry lists; hosts whose offending known_hosts entry
    can be removed are then run once more. Hosts run one after another here. */
module Coordinator {
  import opened Text
  import opened Wrappers
  import opened Invoker

  /** The maps and lists copyAndExecute fills in. `shown` holds the chunks displayed while
      reading, each with its host. */
  datatype Results = Results(
    status: map<string, int>,
    output: map<string, seq<string>>,
    bad: seq<string>,
    retry: seq<string>,
    shown: seq<(string, seq<string>)>)

  const NoResults := Results(map[], map[], [], [], [])

  /** Apply one run's mark to the unreachable and retry lists: each list is kept or gets the
      host appended. The unreachable list grows exactly for an unreachable mark, and for the
      pass-through mark only when the host is not listed yet; the retry list grows exactly
      for a retry. Nothing else changes. */
  function NoteMark(r: Results, cell: string, m: Mark): (r': Results)
    ensures r'.status == r.status && r'.output == r.output && r'.shown == r.shown
    ensures r'.bad == r.bad || r'.bad == r.bad + [cell]
    ensures r'.retry == r.retry || r'.retry == r.retry + [cell]
    ensures |r'.bad| == |r.bad| + 1 <==> m == Unreachable || (m == UnreachableOnce && cell !in r.bad)
    ensures |r'.retry| == |r.retry| + 1 <==> m == Retry
    ensures cell in r'.bad <==> cell in r.bad || m == Unreachable || m == UnreachableOnce
  {
    match m
    case NoMark => r
    case Unreachable => r.(bad := r.bad + [cell])
    case UnreachableOnce => if cell in r.bad then r else r.(bad := r.bad + [cell])
    case Retry => r.(retry := r.retry + [cell])
  }

  function NoteMarks(r: Results, cell: string, marks: seq<Mark>): Results
  {
    if |marks| == 0 then r else NoteMark(NoteMarks(r, cell, marks[..|marks| - 1]), cell, marks[|marks| - 1])
  }

  function Tagged(cell: string, chunks: seq<seq<string>>): (r: seq<(string, seq<string>)>)
    ensures |r| == |chunks| && forall j :: 0 <= j < |chunks| ==> r[j] == (cell, chunks[j])
  {
    seq(|chunks|, j requires 0 <= j < |chunks| => (cell, chunks[j]))
  }

  /** What one host's finished thread leaves behind. */
  function Record(r: Results, cell: string, h: HostRun): Results
  {
    var m := NoteMarks(r, cell, h.marks);
    m.(status := m.status[cell := h.status], output := m.output[cell := h.output], shown := m.shown + Tagged(cell, h.shown))
  }

  /** The configuration every host of a batch of `n` hosts runs with. */
  function ForBatch(cfg: HostConfig, n: nat): HostConfig
  {
    cfg.(batchSize := n)
  }

  /** The result of one host's run inside run_workThread. */
  function HostResult(cfg: HostConfig, cell: string, isIPv6: string -> bool, exec: (string, StageCall) -> Execution): HostRun
  {
    RunAll(cfg, cell, Calls(cfg, cell, isIPv6(cell)), exec)
  }

  /** run_workThread: every host in `cells`, in order. */
  function RunHosts(cfg: HostConfig, cells: seq<string>, isIPv6: string -> bool,
                    exec: (string, StageCall) -> Execution, r: Results): Results
  {
    if |cells| == 0 then r
    else
      var c := cells[|cells| - 1];
      Record(RunHosts(cfg, cells[..|cells| - 1], isIPv6, exec, r), c, HostResult(cfg, c, isIPv6, exec))
  }

  /** Whether remove_offending_keys retries a host: the known_hosts text could be read and
      names the host or its address. */
  predicate AbleToRetry(cell: string, knownHosts: Option<string>, address: Option<string>)
  {
    knownHosts.Some?
    && (Contains(knownHosts.value, cell)
        || (address.Some? && address.value != "" && Contains(knownHosts.value, address.value)))
  }

  /** The hosts of the retry list that can be retried, in list order. `knownHostsAt(k)` is what
      reading known_hosts gave while handling the k-th entry (`None` when it could not be read);
      `resolve` is the name lookup (`None` when it fails). */
  function Retriable(need: seq<string>, knownHostsAt: nat -> Option<string>, resolve: string -> Option<string>): seq<string>
  {
    if |need| == 0 then []
    else
      var k := |need| - 1;
      Retriable(need[..k], knownHostsAt, resolve)
        + (if AbleToRetry(need[k], knownHostsAt(k), resolve(need[k])) then [need[k]] else [])
  }

  /** remove_offending_keys' loop. */
  method RemoveOffendingKeys(need: seq<string>, knownHostsAt: nat -> Option<string>, resolve: string -> Option<string>)
    returns (able: seq<string>)
    ensures able == Retriable(need, knownHostsAt, resolve)
  {
    able := [];
    var k := 0;
    while k < |need|
      invariant 0 <= k <= |need|
      invariant able == Retriable(need[..k], knownHostsAt, resolve)
    {
      assert need[..k + 1][..k] == need[..k];
      var cell := need[k];
      var address := resolve(cell);
      var knownHosts := knownHostsAt(k);
      if knownHosts.Some? {
        var isAbleToRetry := false;
        if Contains(knownHosts.value, cell) {
          isAbleToRetry := true;
        }
        if address.Some? && address.value != "" && Contains(knownHosts.value, address.value) {
          isAbleToRetry := true;
        }
        if isAbleToRetry {
          able := able + [cell];
        }
      }
      k := k + 1;
    }
    assert need[..k] == need;
  }

  /** A host is retried exactly when it needs a retry and its known_hosts entry can be removed. */
  lemma RetriableExactly(need: seq<string>, knownHostsAt: nat -> Option<string>, resolve: string -> Option<string>)
    ensures forall x :: x in Retriable(need, knownHostsAt, resolve) <==>
      exists k :: 0 <= k < |need| && need[k] == x && AbleToRetry(x, knownHostsAt(k), resolve(x))
  {
    forall x ensures x in Retriable(need, knownHostsAt, resolve) <==>
      exists k :: 0 <= k < |need| && need[k] == x && AbleToRetry(x, knownHostsAt(k), resolve(x))
    {
      RetriableMember(need, knownHostsAt, resolve, x);
    }
  }

  /** The same, for one host. */
  lemma {:induction false} RetriableMember(need: seq<string>, knownHostsAt: nat -> Option<string>,
                                           resolve: string -> Option<string>, x: string)
    ensures x in Retriable(need, knownHostsAt, resolve) <==>
      exists k :: 0 <= k < |need| && need[k] == x && AbleToRetry(x, knownHostsAt(k), resolve(x))
  {
    if |need| != 0 {
      var p := need[..|need| - 1];
      RetriableMember(p, knownHostsAt, resolve, x);
      if x in Retriable(p, knownHostsAt, resolve) {
        var k :| 0 <= k < |p| && p[k] == x && AbleToRetry(x, knownHostsAt(k), resolve(x));
        assert need[k] == x;
      }
      if exists k :: 0 <= k < |need| && need[k] == x && AbleToRetry(x, knownHostsAt(k), resolve(x)) {
        var k :| 0 <= k < |need| && need[k] == x && AbleToRetry(x, knownHostsAt(k), resolve(x));
        if k < |p| {
          assert p[k] == x;
        }
      }
    }
  }

  /** run_workThread, one host after another. */
  method RunHostsLoop(cfg: HostConfig, cells: seq<string>, isIPv6: string -> bool,
                      exec: (string, StageCall) -> Execution, start: Results) returns (r: Results)
    ensures r == RunHosts(cfg, cells, isIPv6, exec, start)
  {
    r := start;
    var i := 0;
    while i < |cells|
      invariant 0 <= i <= |cells|
      invariant r == RunHosts(cfg, cells[..i], isIPv6, exec, start)
    {
      assert cells[..i + 1][..i] == cells[..i];
      var cell := cells[i];
      var h := Run(cfg, cell, isIPv6(cell), exec);
      r := Record(r, cell, h);
      i := i + 1;
    }
    assert cells[..i] == cells;
  }

  /** The whole of copyAndExecute's host handling for one batch: run every host, then retry
      those whose offending known_hosts entry could be removed, with the retry's own
      executor (`retryExec`). */
  function CopyAndExecute(cfg: HostConfig, cells: seq<string>, isIPv6: string -> bool,
                          exec: (string, StageCall) -> Execution, retryExec: (string, StageCall) -> Execution,
                          knownHostsAt: nat -> Option<string>, resolve: string -> Option<string>): Results
  {
    var c := ForBatch(cfg, |cells|);
    var first := RunHosts(c, cells, isIPv6, exec, NoResults);
    if |first.retry| == 0 then first
    else RunHosts(c, Retriable(first.retry, knownHostsAt, resolve), isIPv6, retryExec, first)
  }

  method RunBatch(cfg: HostConfig, cells: seq<string>, isIPv6: string -> bool,
                  exec: (string, StageCall) -> Execution, retryExec: (string, StageCall) -> Execution,
                  knownHostsAt: nat -> Option<string>, resolve: string -> Option<string>) returns (r: Results)
    ensures r == CopyAndExecute(cfg, cells, isIPv6, exec, retryExec, knownHostsAt, resolve)
  {
    var c := ForBatch(cfg, |cells|);
    r := RunHostsLoop(c, cells, isIPv6, exec, NoResults);
    if |r.retry| != 0 {
      var again := RemoveOffendingKeys(r.retry, knownHostsAt, resolve);
      r := RunHostsLoop(c, again, isIPv6, retryExec, r);
    }
  }

  /** Marks only ever add the host itself to the lists, and leave the maps alone. */
  lemma {:induction false} NoteMarksAddsOnlyHost(r: Results, cell: string, marks: seq<Mark>)
    ensures var r' := NoteMarks(r, cell, marks);
      r'.status == r.status && r'.output == r.output && r'.shown == r.shown
      && |r.bad| <= |r'.bad| && r'.bad[..|r.bad|] == r.bad && (forall j :: |r.bad| <= j < |r'.bad| ==> r'.bad[j] == cell)
      && |r.retry| <= |r'.retry| && r'.retry[..|r.retry|] == r.retry && (forall j :: |r.retry| <= j < |r'.retry| ==> r'.retry[j] == cell)
  {
    if |marks| != 0 {
      NoteMarksAddsOnlyHost(r, cell, marks[..|marks| - 1]);
    }
  }

  /** A host gets on the retry list exactly when one of its runs asked for a retry. */
  lemma {:induction false} NoteMarksRetry(r: Results, cell: string, marks: seq<Mark>)
    ensures |NoteMarks(r, cell, marks).retry| > |r.retry| <==> Retry in marks
  {
    if |marks| != 0 {
      var p := marks[..|marks| - 1];
      NoteMarksRetry(r, cell, p);
      NoteMarksAddsOnlyHost(r, cell, p);
      assert marks == p + [marks[|marks| - 1]];
    }
  }

  /** Recording a host's run sets its own map entries and no other. */
  lemma RecordMaps(r: Results, cell: string, h: HostRun)
    ensures Record(r, cell, h).status == r.status[cell := h.status]
    ensures Record(r, cell, h).output == r.output[cell := h.output]
  {
    NoteMarksAddsOnlyHost(r, cell, h.marks);
  }

  /** Every host of the batch gets a status and an output entry, entries are never removed,
      and hosts outside the batch keep theirs unchanged. */
  lemma {:induction false} RunHostsCovers(cfg: HostConfig, cells: seq<string>, isIPv6: string -> bool,
                                          exec: (string, StageCall) -> Execution, r: Results)
    ensures var r' := RunHosts(cfg, cells, isIPv6, exec, r);
      (forall c :: c in cells ==> c in r'.status && c in r'.output)
      && (forall c :: c in r'.status <==> c in r.status || c in cells)
      && (forall c :: c in r.status && c !in cells ==> r'.status[c] == r.status[c])
      && (forall c :: c in r'.output <==> c in r.output || c in cells)
      && (forall c :: c in r.output && c !in cells ==> r'.output[c] == r.output[c])
  {
    if |cells| != 0 {
      var p := cells[..|cells| - 1];
      RunHostsCovers(cfg, p, isIPv6, exec, r);
      var last := cells[|cells| - 1];
      RecordMaps(RunHosts(cfg, p, isIPv6, exec, r), last, HostResult(cfg, last, isIPv6, exec));
      assert cells == p + [last];
    }
  }

  /** The status and output recorded for a host are those of its last run in the list. */
  lemma {:induction false} RunHostsEntry(cfg: HostConfig, cells: seq<string>, isIPv6: string -> bool,
                                         exec: (string, StageCall) -> Execution, r: Results, k: nat)
    requires k < |cells| && cells[k] !in cells[k + 1..]
    ensures var r' := RunHosts(cfg, cells, isIPv6, exec, r);
      var h := HostResult(cfg, cells[k], isIPv6, exec);
      cells[k] in r'.status && r'.status[cells[k]] == h.status
      && cells[k] in r'.output && r'.output[cells[k]] == h.output
  {
    var p := cells[..|cells| - 1];
    var last := cells[|cells| - 1];
    RecordMaps(RunHosts(cfg, p, isIPv6, exec, r), last, HostResult(cfg, last, isIPv6, exec));
    if k < |cells| - 1 {
      assert cells[k] == p[k];
      assert last in cells[k + 1..];
      assert p[k + 1..] == cells[k + 1..|cells| - 1];
      RunHostsEntry(cfg, p, isIPv6, exec, r, k);
    }
  }

  /** `after` is `before` with only entries from `cells` appended. */
  predicate AppendsFrom(before: seq<string>, after: seq<string>, cells: seq<string>)
  {
    |before| <= |after| && after[..|before|] == before && forall j :: |before| <= j < |after| ==> after[j] in cells
  }

  lemma AppendsFromStep(a: seq<string>, b: seq<string>, c: seq<string>, p: seq<string>, last: string)
    requires AppendsFrom(a, b, p)
    requires |b| <= |c| && c[..|b|] == b && forall j :: |b| <= j < |c| ==> c[j] == last
    ensures AppendsFrom(a, c, p + [last])
  {
    forall j | |a| <= j < |c| ensures c[j] in p + [last] {
      if j < |b| {
        assert c[j] == b[j];
      }
    }
    assert c[..|a|] == b[..|b|][..|a|];
  }

  /** Only hosts of the batch get on the unreachable list. */
  lemma {:induction false} RunHostsListsOnlyBatchHostsBad(cfg: HostConfig, cells: seq<string>, isIPv6: string -> bool,
                                                          exec: (string, StageCall) -> Execution, r: Results)
    ensures AppendsFrom(r.bad, RunHosts(cfg, cells, isIPv6, exec, r).bad, cells)
  {
    if |cells| != 0 {
      var p := cells[..|cells| - 1];
      var last := cells[|cells| - 1];
      RunHostsListsOnlyBatchHostsBad(cfg, p, isIPv6, exec, r);
      var mid := RunHosts(cfg, p, isIPv6, exec, r);
      NoteMarksAddsOnlyHost(mid, last, HostResult(cfg, last, isIPv6, exec).marks);
      assert cells == p + [last];
      AppendsFromStep(r.bad, mid.bad, RunHosts(cfg, cells, isIPv6, exec, r).bad, p, last);
    }
  }

  /** Only hosts of the batch get on the retry list. */
  lemma {:induction false} RunHostsListsOnlyBatchHostsRetry(cfg: HostConfig, cells: seq<string>, isIPv6: string -> bool,
                                                            exec: (string, StageCall) -> Execution, r: Results)
    ensures AppendsFrom(r.retry, RunHosts(cfg, cells, isIPv6, exec, r).retry, cells)
  {
    if |cells| != 0 {
      var p := cells[..|cells| - 1];
      var last := cells[|cells| - 1];
      RunHostsListsOnlyBatchHostsRetry(cfg, p, isIPv6, exec, r);
      var mid := RunHosts(cfg, p, isIPv6, exec, r);
      NoteMarksAddsOnlyHost(mid, last, HostResult(cfg, last, isIPv6, exec).marks);
      assert cells == p + [last];
      AppendsFromStep(r.retry, mid.retry, RunHosts(cfg, cells, isIPv6, exec, r).retry, p, last);
    }
  }

  /** After the retry pass every host of the batch has a status and an output; hosts that were
      not retried keep those of their first run. */
  lemma RetryOverwritesOnlyRetried(cfg: HostConfig, cells: seq<string>, isIPv6: string -> bool,
                                   exec: (string, StageCall) -> Execution, retryExec: (string, StageCall) -> Execution,
                                   knownHostsAt: nat -> Option<string>, resolve: string -> Option<string>, host: string)
    requires host in cells
    ensures var c := ForBatch(cfg, |cells|);
      var first := RunHosts(c, cells, isIPv6, exec, NoResults);
      var final := CopyAndExecute(cfg, cells, isIPv6, exec, retryExec, knownHostsAt, resolve);
      var again := if |first.retry| == 0 then [] else Retriable(first.retry, knownHostsAt, resolve);
      host in first.status && host in first.output && host in final.status && host in final.output
      && (host !in again ==> final.status[host] == first.status[host] && final.output[host] == first.output[host])
  {
    var c := ForBatch(cfg, |cells|);
    RunHostsCovers(c, cells, isIPv6, exec, NoResults);
    var first := RunHosts(c, cells, isIPv6, exec, NoResults);
    if |first.retry| != 0 {
      RunHostsCovers(c, Retriable(first.retry, knownHostsAt, resolve), isIPv6, retryExec, first);
    }
  }
}
