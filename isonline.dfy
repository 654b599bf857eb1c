/** The `/isonline` command: for a subscribed chat, a placeholder message is sent, every
    target is attempted `probe_count` times in its own task, and the placeholder is replaced
    by a report with one line per target. Here every attempt that did not connect is a
    failure, unlike in the background monitor. */
module Isonline {
  import opened Wrappers
  import opened Probe
  import opened Database
  import opened Chat

  /** The number of attempts that did not connect (timed out or refused). */
  function Failures(attempts: seq<Attempt>): nat
  {
    if attempts == [] then 0
    else Failures(attempts[..|attempts| - 1]) + if attempts[|attempts| - 1].Connected? then 0 else 1
  }

  /** The latency samples in milliseconds, in attempt order: one per connected attempt. */
  function OnlineSamples(attempts: seq<Attempt>): seq<nat>
  {
    if attempts == [] then []
    else
      var last := attempts[|attempts| - 1];
      OnlineSamples(attempts[..|attempts| - 1]) + if last.Connected? then [last.ms] else []
  }

  /** Every attempt is either a failure or a sample. */
  lemma {:induction false} FailuresPlusSamples(attempts: seq<Attempt>)
    ensures Failures(attempts) + |OnlineSamples(attempts)| == |attempts|
  {
    if attempts != [] {
      FailuresPlusSamples(attempts[..|attempts| - 1]);
    }
  }

  /** No attempt failed exactly when every attempt connected, and no sample was taken exactly
      when no attempt connected. */
  lemma {:induction false} FailuresIff(attempts: seq<Attempt>)
    ensures Failures(attempts) == 0 <==> forall i :: 0 <= i < |attempts| ==> attempts[i].Connected?
    ensures OnlineSamples(attempts) == [] <==> forall i :: 0 <= i < |attempts| ==> !attempts[i].Connected?
  {
    if attempts != [] {
      var init := attempts[..|attempts| - 1];
      FailuresIff(init);
      assert forall i :: 0 <= i < |init| ==> init[i] == attempts[i];
    }
  }

  /** `u64::saturating_sub`. */
  function SaturatingSub(a: nat, b: nat): (r: nat)
    ensures b <= a ==> r + b == a
    ensures a < b ==> r == 0
  {
    if b <= a then a - b else 0
  }

  /** What one probe task returns: `(alias, success, total, avg, loss)`. The loss is `None`
      where f64 would give NaN (`0 / 0`, for no attempts at all). */
  datatype Summary = Summary(alias: string, success: nat, total: nat, avg: nat, loss: Option<real>)

  /** The reduction of lines 76-83: successes by saturating subtraction, the integer mean of
      the samples (0 for none), and the failures as a percentage of the attempts. */
  function SummaryOf(alias: string, attempts: seq<Attempt>): Summary
  {
    var fails, samples, total := Failures(attempts), OnlineSamples(attempts), |attempts|;
    Summary(alias, SaturatingSub(total, fails), total,
            if samples == [] then 0 else NatSum(samples) / |samples|,
            if total == 0 then None else Some(LossPercent(fails, total)))
  }

  /** The summary of a series of attempts: successes and failures add up to the attempts,
      the average is the floor of the mean sample, and the loss lies in [0, 100]. */
  lemma SummaryFacts(alias: string, attempts: seq<Attempt>)
    ensures var s, samples := SummaryOf(alias, attempts), OnlineSamples(attempts);
      && s.alias == alias
      && s.total == |attempts|
      && s.success + Failures(attempts) == s.total
      && s.success == |samples|
      && (samples == [] ==> s.avg == 0)
      && (samples != [] ==> s.avg * |samples| <= NatSum(samples) < (s.avg + 1) * |samples|)
      && (s.loss.None? <==> attempts == [])
      && (s.loss.Some? ==> 0.0 <= s.loss.value <= 100.0)
  {
    var samples := OnlineSamples(attempts);
    FailuresPlusSamples(attempts);
    if samples != [] {
      FloorDiv(NatSum(samples), |samples|);
    }
    if attempts != [] {
      LossPercentBounds(Failures(attempts), |attempts|);
    }
  }

  /** Lines 62-84: one probe task, attempting the target `probe_count` times. `attempts` are
      the outcomes, in order. */
  method ProbeTask(alias: string, probeCount: nat, attempts: seq<Attempt>) returns (s: Summary)
    requires |attempts| == probeCount
    ensures s == SummaryOf(alias, attempts)
  {
    var latencies: seq<nat> := [];
    var fails: nat := 0;
    for i := 0 to probeCount
      invariant latencies == OnlineSamples(attempts[..i])
      invariant fails == Failures(attempts[..i])
    {
      assert attempts[..i + 1][..i] == attempts[..i];
      match attempts[i]
      case Connected(ms) =>
        latencies := latencies + [ms];
      case _ =>
        fails := fails + 1;
    }
    assert attempts[..probeCount] == attempts;
    var total := probeCount;
    var success := SaturatingSub(total, fails);
    var avg := if latencies != [] then NatSum(latencies) / |latencies| else 0;
    var loss := if total == 0 then None else Some(fails as real / total as real * 100.0);
    s := Summary(alias, success, total, avg, loss);
  }

  /** Lines 97-106: the first test that holds picks the line. */
  function LineOf(s: Summary): (l: ReportLine)
    ensures l.alias == s.alias
    ensures l.AllSucceeded? <==> s.success == s.total
    ensures l.AllFailed? <==> s.success != s.total && s.success == 0
    ensures l.PartlySucceeded? <==> s.success != s.total && s.success != 0
    ensures !l.AllFailed? ==> l.avg == s.avg
    ensures l.PartlySucceeded? ==> l.loss == s.loss
  {
    if s.success == s.total then AllSucceeded(s.alias, s.avg)
    else if s.success == 0 then AllFailed(s.alias)
    else PartlySucceeded(s.alias, s.avg, s.loss)
  }

  /** The line in terms of the attempts: all-success exactly when every attempt connected
      (so also for no attempts at all), all-fail exactly when there were attempts and none
      connected, and partial otherwise, with the loss shown. */
  lemma LineOfAttempts(alias: string, attempts: seq<Attempt>)
    ensures var l := LineOf(SummaryOf(alias, attempts));
      && (l.AllSucceeded? <==> forall i :: 0 <= i < |attempts| ==> attempts[i].Connected?)
      && (l.AllFailed? <==> attempts != [] && forall i :: 0 <= i < |attempts| ==> !attempts[i].Connected?)
      && (l.PartlySucceeded? <==>
            (exists i :: 0 <= i < |attempts| && attempts[i].Connected?) &&
            (exists i :: 0 <= i < |attempts| && !attempts[i].Connected?))
      && (l.PartlySucceeded? ==> l.loss == Some(LossPercent(Failures(attempts), |attempts|)))
      && (attempts == [] ==> l == AllSucceeded(alias, 0))
  {
    SummaryFacts(alias, attempts);
    FailuresIff(attempts);
  }

  /** The lines of the report: one per task that completed, in task order. */
  function ReportLines(results: seq<Option<Summary>>): seq<ReportLine>
  {
    if results == [] then []
    else
      var last := results[|results| - 1];
      ReportLines(results[..|results| - 1]) + if last.Some? then [LineOf(last.value)] else []
  }

  /** Lines 95-109: the loop that appends one line per completed task to the report. */
  method BuildReport(results: seq<Option<Summary>>) returns (lines: seq<ReportLine>)
    ensures lines == ReportLines(results)
  {
    lines := [];
    for i := 0 to |results|
      invariant lines == ReportLines(results[..i])
    {
      assert results[..i + 1][..i] == results[..i];
      if results[i].Some? {
        lines := lines + [LineOf(results[i].value)];
      }
    }
    assert results[..|results|] == results;
  }

  /** When every task completes, the report has one line per task, in task order. */
  lemma {:induction false} ReportLinesAllOk(results: seq<Option<Summary>>)
    requires forall i :: 0 <= i < |results| ==> results[i].Some?
    ensures |ReportLines(results)| == |results|
    ensures forall i :: 0 <= i < |results| ==> ReportLines(results)[i] == LineOf(results[i].value)
  {
    if results != [] {
      var init := results[..|results| - 1];
      ReportLinesAllOk(init);
    }
  }

  /** A task that did not complete contributes no line, every line comes from a completed
      task, and every completed task has its line in the report. */
  lemma {:induction false} ReportLinesFrom(results: seq<Option<Summary>>)
    ensures |ReportLines(results)| <= |results|
    ensures forall l :: l in ReportLines(results) ==>
              exists i :: 0 <= i < |results| && results[i].Some? && l == LineOf(results[i].value)
    ensures forall i :: 0 <= i < |results| && results[i].Some? ==> LineOf(results[i].value) in ReportLines(results)
  {
    if results != [] {
      var n := |results| - 1;
      var init := results[..n];
      ReportLinesFrom(init);
      forall i | 0 <= i < |results| && results[i].Some?
        ensures LineOf(results[i].value) in ReportLines(results)
      {
        if i < n {
          assert results[i] == init[i];
        }
      }
      forall l | l in ReportLines(results)
        ensures exists i :: 0 <= i < |results| && results[i].Some? && l == LineOf(results[i].value)
      {
        if l in ReportLines(init) {
          var i :| 0 <= i < |init| && init[i].Some? && l == LineOf(init[i].value);
          assert results[i] == init[i];
        } else {
          assert results[n].Some? && l == LineOf(results[n].value);
        }
      }
    }
  }

  /** The positions of the completed tasks, in task order. */
  function Completed(results: seq<Option<Summary>>): seq<nat>
  {
    if results == [] then []
    else
      var n := |results| - 1;
      Completed(results[..n]) + if results[n].Some? then [n] else []
  }

  /** The report lists the lines of exactly the completed tasks, in task order: line `k` is
      the line of the `k`-th completed task, the positions increase strictly, and no
      completed task is missing. */
  lemma {:induction false} ReportLinesInOrder(results: seq<Option<Summary>>)
    ensures var idx, lines := Completed(results), ReportLines(results);
      && |idx| == |lines|
      && (forall k :: 0 <= k < |idx| ==>
            idx[k] < |results| && results[idx[k]].Some? && lines[k] == LineOf(results[idx[k]].value))
      && (forall k, m :: 0 <= k < m < |idx| ==> idx[k] < idx[m])
      && (forall i :: 0 <= i < |results| && results[i].Some? ==> i in idx)
  {
    if results != [] {
      var n := |results| - 1;
      var init := results[..n];
      ReportLinesInOrder(init);
      var idx0, lines0 := Completed(init), ReportLines(init);
      var idx, lines := Completed(results), ReportLines(results);
      assert idx == idx0 + if results[n].Some? then [n] else [];
      assert lines == lines0 + if results[n].Some? then [LineOf(results[n].value)] else [];
      forall k | 0 <= k < |idx|
        ensures idx[k] < |results| && results[idx[k]].Some? && lines[k] == LineOf(results[idx[k]].value)
      {
        if k < |idx0| {
          assert idx[k] == idx0[k] < n && results[idx[k]] == init[idx0[k]] && lines[k] == lines0[k];
        }
      }
      forall k, m | 0 <= k < m < |idx|
        ensures idx[k] < idx[m]
      {
        if m >= |idx0| {
          assert idx[m] == n && idx[k] == idx0[k] < n;
        }
      }
      forall i | 0 <= i < |results| && results[i].Some?
        ensures i in idx
      {
        if i < n {
          assert results[i] == init[i];
        }
      }
    }
  }

  /** What `join_all` hands back: per target, in target order, the summary of its attempts,
      or `None` where the task did not complete (`panicked`). */
  function ProbeResults(targets: seq<Target>, outcomes: seq<seq<Attempt>>, panicked: seq<bool>): (r: seq<Option<Summary>>)
    requires |outcomes| == |targets| == |panicked|
    ensures |r| == |targets|
  {
    seq(|targets|, i requires 0 <= i < |targets| =>
      if panicked[i] then None else Some(SummaryOf(targets[i].alias, outcomes[i])))
  }

  /** Every completed result carries the alias of the target at the same position: aliases
      are paired with results by construction, not by completion order. */
  lemma ResultsFollowTargets(targets: seq<Target>, outcomes: seq<seq<Attempt>>, panicked: seq<bool>, i: nat)
    requires |outcomes| == |targets| == |panicked| && i < |targets|
    ensures ProbeResults(targets, outcomes, panicked)[i].Some? <==> !panicked[i]
    ensures !panicked[i] ==> ProbeResults(targets, outcomes, panicked)[i].value.alias == targets[i].alias
  {
    SummaryFacts(targets[i].alias, outcomes[i]);
  }

  /** Lines 57-88: one task per target, pushed in target order, then awaited in that order. */
  method SpawnProbes(targets: seq<Target>, probeCount: nat, outcomes: seq<seq<Attempt>>, panicked: seq<bool>)
    returns (results: seq<Option<Summary>>)
    requires |outcomes| == |targets| == |panicked|
    requires forall i :: 0 <= i < |outcomes| ==> |outcomes[i]| == probeCount
    ensures results == ProbeResults(targets, outcomes, panicked)
  {
    results := [];
    for i := 0 to |targets|
      invariant results == ProbeResults(targets, outcomes, panicked)[..i]
    {
      var s := ProbeTask(targets[i].alias, probeCount, outcomes[i]);
      results := results + [if panicked[i] then None else Some(s)];
    }
  }

  /** `isonline_command`. The subscription lookup comes first: an unsubscribed chat, or a
      failed lookup (`unwrap_or(false)`), ends the command with no request at all. Otherwise
      the placeholder is sent; if that request fails its error is the result. Otherwise the
      probes run and the placeholder is edited into the report; the outcome of the edit is
      discarded. The spawned task is run to completion here. */
  method IsonlineCommand(db: Db, chat: int, probeCount: nat, targets: seq<Target>, outcomes: seq<seq<Attempt>>,
                         panicked: seq<bool>, lookupFails: bool, placeholderFails: bool)
    returns (actions: seq<Action>, r: Result<()>)
    requires |outcomes| == |targets| == |panicked|
    requires forall i :: 0 <= i < |outcomes| ==> |outcomes[i]| == probeCount
    ensures lookupFails || chat !in db.subscriptions ==> actions == [] && r == Ok(())
    ensures !lookupFails && chat in db.subscriptions && placeholderFails ==> actions == [Send(chat, Testing)] && r == Err
    ensures !lookupFails && chat in db.subscriptions && !placeholderFails ==>
              && actions == [Send(chat, Testing), Edit(chat, ProbeReport(ReportLines(ProbeResults(targets, outcomes, panicked))))]
              && r == Ok(())
  {
    var subscribed := db.IsSubscribed(chat, lookupFails);
    if !(subscribed.Ok? && subscribed.value) {
      return [], Ok(());
    }
    actions := [Send(chat, Testing)];
    if placeholderFails {
      return actions, Err;
    }
    var results := SpawnProbes(targets, probeCount, outcomes, panicked);
    var lines := BuildReport(results);
    actions := actions + [Edit(chat, ProbeReport(lines))];
    r := Ok(());
  }
}
