/** The background monitor: every `probe_count` seconds each target is attempted
    `probe_count` times, the attempts are reduced to an average latency and a loss
    percentage, and one metric row per target is written to the store under a timestamp read
    once per cycle. Here only a timed-out attempt is a failure. */
module Monitor {
  import opened Wrappers
  import opened Probe
  import opened Database

  /** The number of attempts that timed out. */
  function Timeouts(attempts: seq<Attempt>): nat
  {
    if attempts == [] then 0
    else Timeouts(attempts[..|attempts| - 1]) + if attempts[|attempts| - 1].TimedOut? then 1 else 0
  }

  /** The latency samples, in attempt order: the elapsed milliseconds of every attempt that
      finished before the timeout, whether it connected or not. */
  function MonitorSamples(attempts: seq<Attempt>): seq<real>
  {
    if attempts == [] then []
    else
      var last := attempts[|attempts| - 1];
      MonitorSamples(attempts[..|attempts| - 1]) + if last.TimedOut? then [] else [last.ms as real]
  }

  /** Every attempt is either a failure or a sample. */
  lemma {:induction false} TimeoutsPlusSamples(attempts: seq<Attempt>)
    ensures Timeouts(attempts) + |MonitorSamples(attempts)| == |attempts|
  {
    if attempts != [] {
      TimeoutsPlusSamples(attempts[..|attempts| - 1]);
    }
  }

  /** No failure is counted unless some attempt timed out: a refused connection is a sample. */
  lemma {:induction false} NoTimeoutNoFailure(attempts: seq<Attempt>)
    ensures Timeouts(attempts) == 0 <==> forall i :: 0 <= i < |attempts| ==> !attempts[i].TimedOut?
  {
    if attempts != [] {
      var init := attempts[..|attempts| - 1];
      NoTimeoutNoFailure(init);
      assert forall i :: 0 <= i < |init| ==> init[i] == attempts[i];
    }
  }

  /** The sample of a refused connection is its elapsed time, appended after the samples
      before it. */
  lemma ConnectErrorIsSampled(attempts: seq<Attempt>, ms: nat)
    ensures MonitorSamples(attempts + [ConnectError(ms)]) == MonitorSamples(attempts) + [ms as real]
    ensures Timeouts(attempts + [ConnectError(ms)]) == Timeouts(attempts)
  {
    assert (attempts + [ConnectError(ms)])[..|attempts|] == attempts;
  }

  /** The row one target contributes to a cycle stamped `now`. */
  function RowOf(target: Target, attempts: seq<Attempt>, now: int): MetricRow
    requires attempts != []
  {
    MetricRow(target.alias, now, Mean(MonitorSamples(attempts)), LossPercent(Timeouts(attempts), |attempts|))
  }

  /** Lines 24-42 of the monitor: the attempt loop and the reduction of its outcomes.
      `attempts` are the outcomes of the `probe_count` attempts, in order. */
  method ReduceScheduled(attempts: seq<Attempt>, probeCount: nat) returns (avg: real, loss: real)
    requires |attempts| == probeCount && probeCount > 0
    ensures MonitorSamples(attempts) == [] ==> avg == 0.0
    ensures MonitorSamples(attempts) != [] ==>
              avg == RealSum(MonitorSamples(attempts)) / |MonitorSamples(attempts)| as real
    ensures MonitorSamples(attempts) != [] ==>
              RealMin(MonitorSamples(attempts)) <= avg <= RealMax(MonitorSamples(attempts))
    ensures loss == Timeouts(attempts) as real / probeCount as real * 100.0
    ensures 0.0 <= loss <= 100.0
  {
    var latencies: seq<real> := [];
    var fails: nat := 0;
    for i := 0 to probeCount
      invariant latencies == MonitorSamples(attempts[..i])
      invariant fails == Timeouts(attempts[..i])
    {
      assert attempts[..i + 1][..i] == attempts[..i];
      if attempts[i].TimedOut? {
        fails := fails + 1;
      } else {
        latencies := latencies + [attempts[i].ms as real];
      }
    }
    assert attempts[..probeCount] == attempts;
    avg := if latencies == [] then 0.0 else RealSum(latencies) / |latencies| as real;
    if latencies != [] {
      MeanBetween(latencies);
    }
    TimeoutsPlusSamples(attempts);
    loss := fails as real / probeCount as real * 100.0;
    LossPercentBounds(fails, probeCount);
  }

  /** The rows of one cycle, one per target in target order, all stamped `now`. */
  function CycleRows(targets: seq<Target>, outcomes: seq<seq<Attempt>>, now: int): (rows: seq<MetricRow>)
    requires |outcomes| == |targets|
    requires forall i :: 0 <= i < |outcomes| ==> outcomes[i] != []
    ensures |rows| == |targets|
  {
    if targets == [] then []
    else
      var n := |targets| - 1;
      CycleRows(targets[..n], outcomes[..n], now) + [RowOf(targets[n], outcomes[n], now)]
  }

  /** The elements of `xs` whose flag equals `keep`, in order. */
  function Select<T>(xs: seq<T>, flags: seq<bool>, keep: bool): seq<T>
    requires |flags| == |xs|
  {
    if xs == [] then []
    else
      var n := |xs| - 1;
      Select(xs[..n], flags[..n], keep) + if flags[n] == keep then [xs[n]] else []
  }

  /** The rows the store accepts and the aliases it reports as failed partition the cycle. */
  lemma {:induction false} SelectPartition<T>(xs: seq<T>, flags: seq<bool>)
    requires |flags| == |xs|
    ensures |Select(xs, flags, false)| + |Select(xs, flags, true)| == |xs|
  {
    if xs != [] {
      SelectPartition(xs[..|xs| - 1], flags[..|xs| - 1]);
    }
  }

  /** Everything selected comes from the input. */
  lemma {:induction false} SelectFrom<T>(xs: seq<T>, flags: seq<bool>, keep: bool)
    requires |flags| == |xs|
    ensures forall y :: y in Select(xs, flags, keep) ==> y in xs
  {
    if xs != [] {
      var n := |xs| - 1;
      SelectFrom(xs[..n], flags[..n], keep);
      assert forall y :: y in xs[..n] ==> y in xs;
    }
  }

  /** With no insert failing, every row of the cycle is stored, in target order. */
  lemma {:induction false} SelectNone<T>(xs: seq<T>, flags: seq<bool>)
    requires |flags| == |xs| && forall i :: 0 <= i < |flags| ==> !flags[i]
    ensures Select(xs, flags, false) == xs
    ensures Select(xs, flags, true) == []
  {
    if xs != [] {
      var n := |xs| - 1;
      SelectNone(xs[..n], flags[..n]);
      assert xs[..n] + [xs[n]] == xs;
    }
  }

  /** One row per target, in target order, each with the target's alias and the cycle's
      timestamp. */
  lemma {:induction false} CycleRowsShape(targets: seq<Target>, outcomes: seq<seq<Attempt>>, now: int)
    requires |outcomes| == |targets|
    requires forall i :: 0 <= i < |outcomes| ==> outcomes[i] != []
    ensures |CycleRows(targets, outcomes, now)| == |targets|
    ensures forall i :: 0 <= i < |targets| ==>
              CycleRows(targets, outcomes, now)[i] == RowOf(targets[i], outcomes[i], now)
  {
    if targets != [] {
      var n := |targets| - 1;
      CycleRowsShape(targets[..n], outcomes[..n], now);
    }
  }

  /** Every row written in one cycle carries the cycle's timestamp. */
  lemma SameTimestamp(targets: seq<Target>, outcomes: seq<seq<Attempt>>, now: int, insertFails: seq<bool>)
    requires |outcomes| == |targets| == |insertFails|
    requires forall i :: 0 <= i < |outcomes| ==> outcomes[i] != []
    ensures forall r :: r in Select(CycleRows(targets, outcomes, now), insertFails, false) ==> r.ts == now
  {
    var rows := CycleRows(targets, outcomes, now);
    CycleRowsShape(targets, outcomes, now);
    SelectFrom(rows, insertFails, false);
  }

  /** Lines 22-48: one pass of the monitor loop. The clock is read once (`now`); every
      target gets one insert (see `ProbeAll`), a failed insert is logged (its alias is
      returned in `errors`); then the task sleeps `probe_count` seconds. */
  method Cycle(db: Db, targets: seq<Target>, probeCount: nat, outcomes: seq<seq<Attempt>>, now: int,
               insertFails: seq<bool>)
    returns (errors: seq<string>, sleepSecs: nat)
    requires probeCount > 0
    requires |outcomes| == |targets| == |insertFails|
    requires forall i :: 0 <= i < |outcomes| ==> |outcomes[i]| == probeCount
    modifies db
    ensures db.subscriptions == old(db.subscriptions)
    ensures db.metrics == old(db.metrics) + Select(CycleRows(targets, outcomes, now), insertFails, false)
    ensures errors == Select(Aliases(targets), insertFails, true)
    ensures |db.metrics| - |old(db.metrics)| + |errors| == |targets|
    ensures sleepSecs == probeCount
  {
    errors := ProbeAll(db, targets, probeCount, outcomes, now, insertFails);
    StoredPlusLogged(targets, outcomes, now, insertFails);
    sleepSecs := probeCount;
  }

  /** Lines 23-47: for every target, in order, the attempts are reduced and one insert is
      issued; a failed insert is logged and the remaining targets are still processed. */
  method ProbeAll(db: Db, targets: seq<Target>, probeCount: nat, outcomes: seq<seq<Attempt>>, now: int,
                  insertFails: seq<bool>)
    returns (errors: seq<string>)
    requires probeCount > 0
    requires |outcomes| == |targets| == |insertFails|
    requires forall i :: 0 <= i < |outcomes| ==> |outcomes[i]| == probeCount
    modifies db
    ensures db.subscriptions == old(db.subscriptions)
    ensures db.metrics == old(db.metrics) + Select(CycleRows(targets, outcomes, now), insertFails, false)
    ensures errors == Select(Aliases(targets), insertFails, true)
  {
    errors := [];
    ghost var written: seq<MetricRow> := [];
    for i := 0 to |targets|
      invariant db.subscriptions == old(db.subscriptions)
      invariant db.metrics == old(db.metrics) + written
      invariant CycleSoFar(targets, outcomes, now, insertFails, i, written, errors)
    {
      CycleStep(targets, outcomes, now, insertFails, i, written, errors);
      var r := ProbeTarget(db, targets[i], probeCount, outcomes[i], now, insertFails[i]);
      if r.Err? {
        errors := errors + [targets[i].alias];
      } else {
        written := written + [RowOf(targets[i], outcomes[i], now)];
      }
    }
    CycleDone(targets, outcomes, now, insertFails, written, errors);
  }

  /** Selecting by the same flags from two sequences of one length picks as many elements
      from each. */
  lemma {:induction false} SelectLen<T, U>(xs: seq<T>, ys: seq<U>, flags: seq<bool>, keep: bool)
    requires |xs| == |ys| == |flags|
    ensures |Select(xs, flags, keep)| == |Select(ys, flags, keep)|
  {
    if xs != [] {
      var n := |xs| - 1;
      SelectLen(xs[..n], ys[..n], flags[..n], keep);
    }
  }

  /** Every target of a cycle gets one insert: its row is stored or its alias is logged,
      so the stored rows and the logged aliases together number the targets. */
  lemma StoredPlusLogged(targets: seq<Target>, outcomes: seq<seq<Attempt>>, now: int, insertFails: seq<bool>)
    requires |outcomes| == |targets| == |insertFails|
    requires forall i :: 0 <= i < |outcomes| ==> outcomes[i] != []
    ensures |Select(CycleRows(targets, outcomes, now), insertFails, false)| +
            |Select(Aliases(targets), insertFails, true)| == |targets|
  {
    var rows := CycleRows(targets, outcomes, now);
    SelectPartition(rows, insertFails);
    SelectLen(rows, Aliases(targets), insertFails, true);
  }

  /** After the first `i` targets: `written` holds the rows of those targets whose insert
      succeeded and `errors` the aliases of those whose insert failed. */
  ghost predicate CycleSoFar(targets: seq<Target>, outcomes: seq<seq<Attempt>>, now: int, insertFails: seq<bool>,
                             i: nat, written: seq<MetricRow>, errors: seq<string>)
  {
    && |outcomes| == |targets| == |insertFails|
    && (forall j :: 0 <= j < |outcomes| ==> outcomes[j] != [])
    && i <= |targets|
    && written == Select(CycleRows(targets[..i], outcomes[..i], now), insertFails[..i], false)
    && errors == Select(Aliases(targets[..i]), insertFails[..i], true)
  }

  lemma CycleDone(targets: seq<Target>, outcomes: seq<seq<Attempt>>, now: int, insertFails: seq<bool>,
                  written: seq<MetricRow>, errors: seq<string>)
    requires CycleSoFar(targets, outcomes, now, insertFails, |targets|, written, errors)
    ensures written == Select(CycleRows(targets, outcomes, now), insertFails, false)
    ensures errors == Select(Aliases(targets), insertFails, true)
  {
    assert targets[..|targets|] == targets;
    assert outcomes[..|targets|] == outcomes;
    assert insertFails[..|targets|] == insertFails;
  }

  /** The body of the loop over targets: reduce the attempts of one target and insert its
      row stamped `now`. */
  method ProbeTarget(db: Db, target: Target, probeCount: nat, attempts: seq<Attempt>, now: int, insertFails: bool)
    returns (r: Result<()>)
    requires |attempts| == probeCount && probeCount > 0
    modifies db
    ensures r == if insertFails then Err else Ok(())
    ensures db.subscriptions == old(db.subscriptions)
    ensures db.metrics == old(db.metrics) + if insertFails then [] else [RowOf(target, attempts, now)]
  {
    var avg, loss := ReduceScheduled(attempts, probeCount);
    assert MetricRow(target.alias, now, avg, loss) == RowOf(target, attempts, now);
    r := db.InsertMetric(target.alias, now, avg, loss, insertFails);
  }

  /** How the rows and the error list of a cycle grow by one target. */
  lemma CycleStep(targets: seq<Target>, outcomes: seq<seq<Attempt>>, now: int, insertFails: seq<bool>,
                  i: nat, written: seq<MetricRow>, errors: seq<string>)
    requires CycleSoFar(targets, outcomes, now, insertFails, i, written, errors) && i < |targets|
    ensures CycleSoFar(targets, outcomes, now, insertFails, i + 1,
                       written + if insertFails[i] then [] else [RowOf(targets[i], outcomes[i], now)],
                       errors + if insertFails[i] then [targets[i].alias] else [])
  {
    assert targets[..i + 1][..i] == targets[..i];
    assert outcomes[..i + 1][..i] == outcomes[..i];
    assert insertFails[..i + 1] == insertFails[..i] + [insertFails[i]];
    var rows := CycleRows(targets[..i], outcomes[..i], now);
    assert CycleRows(targets[..i + 1], outcomes[..i + 1], now) == rows + [RowOf(targets[i], outcomes[i], now)];
    SelectSnoc(rows, insertFails[..i], RowOf(targets[i], outcomes[i], now), insertFails[i], false);
    assert Aliases(targets[..i + 1]) == Aliases(targets[..i]) + [targets[i].alias];
    SelectSnoc(Aliases(targets[..i]), insertFails[..i], targets[i].alias, insertFails[i], true);
  }

  lemma SelectSnoc<T>(xs: seq<T>, flags: seq<bool>, x: T, f: bool, keep: bool)
    requires |flags| == |xs|
    ensures Select(xs + [x], flags + [f], keep) == Select(xs, flags, keep) + if f == keep then [x] else []
  {
    assert (xs + [x])[..|xs|] == xs;
    assert (flags + [f])[..|xs|] == flags;
  }
}
