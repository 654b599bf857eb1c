/** The `/uptime` report: metric rows of the last hour are summed per alias into 15-minute
    windows aligned to multiples of 900 seconds since the epoch, and every window is shown
    as a traffic-light symbol. */
module Uptime {
  import opened Wrappers
  import opened Order
  import opened Database
  import opened Chat

  /** The window width, 15 minutes in seconds. */
  const WindowSecs: int := 15 * 60
  /** The look-back of the report in hours, and in seconds. */
  const LookbackHours: nat := 1
  const LookbackSecs: int := LookbackHours * 3600

  /** Rust's `%` on `i64`: the remainder of division truncated toward zero, which takes the
      sign of the dividend (Dafny's `%` is Euclidean). */
  function RustRem(a: int, b: int): (r: int)
    requires b > 0
    ensures a >= 0 ==> 0 <= r < b
    ensures a < 0 ==> -b < r <= 0
    ensures exists q :: a == q * b + r
  {
    if a >= 0 then
      assert a == (a / b) * b + a % b;
      a % b
    else
      assert a == (-((-a) / b)) * b + -((-a) % b);
      -((-a) % b)
  }

  /** `secs - secs % (15 * 60)`: the start of the window holding `secs`. For timestamps at or
      after the epoch the window is `[start, start + 900)`; before the epoch Rust's `%`
      rounds toward zero, so the window is `(start - 900, start]`. */
  function WindowStart(secs: int): (w: int)
    ensures w % WindowSecs == 0
    ensures secs >= 0 ==> 0 <= w <= secs < w + WindowSecs
    ensures secs < 0 ==> w - WindowSecs < secs <= w <= 0
  {
    secs - RustRem(secs, WindowSecs)
  }

  /** For timestamps at or after the epoch the window start is the floor of `secs / 900`
      times 900, and it is the only multiple of 900 in `(secs - 900, secs]`. */
  lemma WindowStartIsFloor(secs: int, m: int)
    requires secs >= 0
    requires m % WindowSecs == 0 && m <= secs < m + WindowSecs
    ensures WindowStart(secs) == (secs / WindowSecs) * WindowSecs == m
  {
    var w := WindowStart(secs);
    assert secs == (secs / WindowSecs) * WindowSecs + secs % WindowSecs;
    assert w == (w / WindowSecs) * WindowSecs;
    assert m == (m / WindowSecs) * WindowSecs;
    assert w - m == (w / WindowSecs - m / WindowSecs) * WindowSecs;
  }

  /** Window assignment is monotone in the timestamp. */
  lemma WindowStartMonotone(t1: int, t2: int)
    requires t1 <= t2
    ensures WindowStart(t1) <= WindowStart(t2)
  {
  }

  /** A window start is its own window start. */
  lemma WindowStartIdempotent(t: int)
    ensures WindowStart(WindowStart(t)) == WindowStart(t)
  {
  }

  // ---------------------------------------------------------------------------------
  // Accumulation into buckets: alias -> window start -> summed loss.

  predicate InBucket(row: MetricRow, alias: string, w: int)
  {
    row.alias == alias && WindowStart(row.ts) == w
  }

  /** The exact sum of `loss` over the rows of one bucket. */
  function LossSum(rows: seq<MetricRow>, alias: string, w: int): real
  {
    if rows == [] then 0.0
    else
      var last := rows[|rows| - 1];
      LossSum(rows[..|rows| - 1], alias, w) + if InBucket(last, alias, w) then last.loss else 0.0
  }

  /** The aliases that occur in `rows`. */
  function RowAliases(rows: seq<MetricRow>): set<string>
  {
    set i | 0 <= i < |rows| :: rows[i].alias
  }

  /** The window starts of the rows of `alias`. */
  function WindowsOf(rows: seq<MetricRow>, alias: string): set<int>
  {
    set i | 0 <= i < |rows| && rows[i].alias == alias :: WindowStart(rows[i].ts)
  }

  /** Reference definition of the buckets: one per (alias, window) pair that some row falls
      in, holding the sum of the losses of those rows. */
  function BucketsOf(rows: seq<MetricRow>): map<string, map<int, real>>
  {
    map a | a in RowAliases(rows) :: Windows(rows, a)
  }

  /** The buckets of one alias: window start -> summed loss. */
  function Windows(rows: seq<MetricRow>, a: string): map<int, real>
  {
    map w | w in WindowsOf(rows, a) :: LossSum(rows, a, w)
  }

  /** A bucket no row falls in sums to zero. */
  lemma {:induction false} LossSumAbsent(rows: seq<MetricRow>, alias: string, w: int)
    requires w !in WindowsOf(rows, alias)
    ensures LossSum(rows, alias, w) == 0.0
  {
    if rows != [] {
      var init := rows[..|rows| - 1];
      assert WindowsOf(init, alias) <= WindowsOf(rows, alias) by {
        forall x | x in WindowsOf(init, alias) ensures x in WindowsOf(rows, alias) {
          var i :| 0 <= i < |init| && init[i].alias == alias && WindowStart(init[i].ts) == x;
          assert rows[i] == init[i];
        }
      }
      LossSumAbsent(init, alias, w);
    }
  }

  lemma GroupingSnoc(rows: seq<MetricRow>, row: MetricRow)
    ensures RowAliases(rows + [row]) == RowAliases(rows) + {row.alias}
    ensures forall a :: WindowsOf(rows + [row], a) ==
                        WindowsOf(rows, a) + if row.alias == a then {WindowStart(row.ts)} else {}
  {
    var s := rows + [row];
    assert forall i :: 0 <= i < |rows| ==> s[i] == rows[i];
    assert s[|rows|] == row;
    assert RowAliases(s) == RowAliases(rows) + {row.alias};
    forall a
      ensures WindowsOf(s, a) == WindowsOf(rows, a) + if row.alias == a then {WindowStart(row.ts)} else {}
    {
    }
  }

  /** One step of the accumulation: `entry(alias).or_default().entry(window)
      .and_modify(|sum| *sum += loss).or_insert(loss)`. */
  function AddLoss(buckets: map<string, map<int, real>>, row: MetricRow): map<string, map<int, real>>
  {
    var inner := if row.alias in buckets then buckets[row.alias] else map[];
    buckets[row.alias := AddWindow(inner, WindowStart(row.ts), row.loss)]
  }

  /** The inner half of the accumulation step: add `loss` to window `w`, or start it. */
  function AddWindow(inner: map<int, real>, w: int, loss: real): map<int, real>
  {
    inner[w := if w in inner then inner[w] + loss else loss]
  }

  lemma LossSumSnoc(rows: seq<MetricRow>, row: MetricRow, alias: string, w: int)
    ensures LossSum(rows + [row], alias, w) ==
            LossSum(rows, alias, w) + if InBucket(row, alias, w) then row.loss else 0.0
  {
    assert (rows + [row])[..|rows|] == rows;
  }

  /** The bucket of `a` after one more row, when `a` is not the alias of that row. */
  lemma OtherAliasSnoc(rows: seq<MetricRow>, row: MetricRow, a: string)
    requires a in RowAliases(rows + [row]) && a != row.alias
    ensures BucketsOf(rows + [row])[a] == BucketsOf(rows)[a]
  {
    GroupingSnoc(rows, row);
    var after, before := BucketsOf(rows + [row])[a], BucketsOf(rows)[a];
    assert after.Keys == before.Keys;
    forall w | w in after ensures after[w] == before[w] {
      LossSumSnoc(rows, row, a, w);
    }
  }

  /** The sum of one window of the alias of one more row. */
  lemma SameAliasValue(rows: seq<MetricRow>, row: MetricRow, w: int)
    ensures LossSum(rows + [row], row.alias, w) ==
            if w != WindowStart(row.ts) then LossSum(rows, row.alias, w)
            else if w in WindowsOf(rows, row.alias) then LossSum(rows, row.alias, w) + row.loss
            else row.loss
  {
    LossSumSnoc(rows, row, row.alias, w);
    if w == WindowStart(row.ts) && w !in WindowsOf(rows, row.alias) {
      LossSumAbsent(rows, row.alias, w);
    }
  }

  /** The windows of the alias of one more row. */
  lemma WindowsSnocSame(rows: seq<MetricRow>, row: MetricRow)
    ensures Windows(rows + [row], row.alias) == AddWindow(Windows(rows, row.alias), WindowStart(row.ts), row.loss)
  {
    GroupingSnoc(rows, row);
    var after := Windows(rows + [row], row.alias);
    var step := AddWindow(Windows(rows, row.alias), WindowStart(row.ts), row.loss);
    assert after.Keys == step.Keys;
    forall w | w in after ensures after[w] == step[w] {
      SameAliasValue(rows, row, w);
    }
  }

  /** An alias without rows has no windows. */
  lemma WindowsEmpty(rows: seq<MetricRow>, a: string)
    requires a !in RowAliases(rows)
    ensures Windows(rows, a) == map[]
  {
    forall i | 0 <= i < |rows| ensures rows[i].alias != a {
      assert rows[i].alias in RowAliases(rows);
    }
    assert WindowsOf(rows, a) == {};
  }

  /** The bucket of the alias of one more row. */
  lemma SameAliasSnoc(rows: seq<MetricRow>, row: MetricRow)
    ensures row.alias in BucketsOf(rows + [row])
    ensures BucketsOf(rows + [row])[row.alias] == AddLoss(BucketsOf(rows), row)[row.alias]
  {
    var a := row.alias;
    GroupingSnoc(rows, row);
    BucketsOfAt(rows + [row], a);
    BucketsOfAt(rows, a);
    if a !in RowAliases(rows) {
      WindowsEmpty(rows, a);
    }
    WindowsSnocSame(rows, row);
  }

  lemma BucketsOfAt(rows: seq<MetricRow>, a: string)
    ensures a in BucketsOf(rows) <==> a in RowAliases(rows)
    ensures a in BucketsOf(rows) ==> BucketsOf(rows)[a] == Windows(rows, a)
  {
  }

  /** Folding one more row into the buckets of a prefix gives the buckets of the longer
      sequence. */
  lemma BucketsOfSnoc(rows: seq<MetricRow>, row: MetricRow)
    ensures BucketsOf(rows + [row]) == AddLoss(BucketsOf(rows), row)
  {
    var after, step := BucketsOf(rows + [row]), AddLoss(BucketsOf(rows), row);
    GroupingSnoc(rows, row);
    assert after.Keys == step.Keys;
    forall a | a in after ensures after[a] == step[a] {
      if a == row.alias {
        SameAliasSnoc(rows, row);
      } else {
        OtherAliasSnoc(rows, row, a);
      }
    }
  }

  /** The `for` loop of `draw_uptime`, accumulating every row into its bucket. Every bucket
      value is the exact sum of the losses of its rows, and no bucket (and no alias) exists
      without a row. */
  method Bucketize(rows: seq<MetricRow>) returns (buckets: map<string, map<int, real>>)
    ensures buckets.Keys == RowAliases(rows)
    ensures forall a :: a in buckets ==> buckets[a].Keys == WindowsOf(rows, a)
    ensures forall a, w :: a in buckets && w in buckets[a] ==> buckets[a][w] == LossSum(rows, a, w)
    ensures buckets == BucketsOf(rows)
  {
    buckets := map[];
    for i := 0 to |rows|
      invariant buckets == BucketsOf(rows[..i])
    {
      var row := rows[i];
      var w := WindowStart(row.ts);
      var inner := if row.alias in buckets then buckets[row.alias] else map[];
      var total := if w in inner then inner[w] + row.loss else row.loss;
      assert inner[w := total] == AddWindow(inner, w, row.loss);
      BucketizeStep(rows, i);
      buckets := buckets[row.alias := inner[w := total]];
    }
    assert rows[..|rows|] == rows;
    BucketsOfLookup(rows);
  }

  /** The reference buckets hold one entry per alias and window some row falls in. */
  lemma BucketsOfLookup(rows: seq<MetricRow>)
    ensures BucketsOf(rows).Keys == RowAliases(rows)
    ensures forall a :: a in BucketsOf(rows) ==> BucketsOf(rows)[a].Keys == WindowsOf(rows, a)
    ensures forall a, w :: a in BucketsOf(rows) && w in BucketsOf(rows)[a] ==>
              BucketsOf(rows)[a][w] == LossSum(rows, a, w)
  {
  }

  lemma BucketizeStep(rows: seq<MetricRow>, i: nat)
    requires i < |rows|
    ensures BucketsOf(rows[..i + 1]) == AddLoss(BucketsOf(rows[..i]), rows[i])
  {
    assert rows[..i + 1] == rows[..i] + [rows[i]];
    BucketsOfSnoc(rows[..i], rows[i]);
  }

  /** Every alias of the data has at least one window. */
  lemma AliasHasWindow(rows: seq<MetricRow>, a: string)
    requires a in BucketsOf(rows)
    ensures BucketsOf(rows)[a] != map[]
  {
    var i :| 0 <= i < |rows| && rows[i].alias == a;
    assert WindowStart(rows[i].ts) in WindowsOf(rows, a);
    assert WindowStart(rows[i].ts) in BucketsOf(rows)[a];
  }

  // ---------------------------------------------------------------------------------
  // Classification and message assembly.

  /** The symbol of one window. As written the thresholds are `50.0 - f64::EPSILON` and
      `100.0 - f64::EPSILON`, which equal 50.0 and 100.0 in f64. */
  function Classify(total: real): (s: Status)
    ensures s == Green <==> total <= 50.0
    ensures s == Yellow <==> 50.0 < total < 100.0
    ensures s == Red <==> total >= 100.0
  {
    if total <= 50.0 then Green
    else if total > 50.0 && total < 100.0 then Yellow
    else Red
  }

  function Severity(s: Status): nat
  {
    match s
    case Green => 0
    case Yellow => 1
    case Red => 2
  }

  /** More summed loss never gives a healthier symbol. */
  lemma ClassifyMonotone(t1: real, t2: real)
    requires t1 <= t2
    ensures Severity(Classify(t1)) <= Severity(Classify(t2))
  {
  }

  /** The symbols of one alias: one per window, in ascending window-start order. */
  ghost function CellsOf(windows: map<int, real>): (cells: seq<Status>)
  {
    AscendingSpec(windows.Keys);
    var ws := Ascending(windows.Keys);
    seq(|ws|, j requires 0 <= j < |ws| => Classify(windows[ws[j]]))
  }

  lemma AscendingUnfold(s: set<int>, w: int)
    requires w in s && forall x :: x in s ==> w <= x
    ensures Ascending(s) == [w] + Ascending(s - {w})
  {
    assert w == IntMin(s);
  }

  lemma DropHead(ws: seq<int>, k: nat, w: int, tail: seq<int>)
    requires k <= |ws| && ws[k..] == [w] + tail
    ensures k < |ws| && ws[k] == w && ws[k + 1..] == tail
  {
    assert ws[k..][0] == w;
    assert ws[k + 1..] == ws[k..][1..];
  }

  /** The loop state of `AliasCells`: the symbols so far are those of the first windows of
      `ws`, and the windows still to do are the rest of `ws`. */
  ghost predicate CellsSoFar(windows: map<int, real>, ws: seq<int>, cells: seq<Status>, remaining: set<int>)
  {
    && remaining <= windows.Keys
    && |cells| <= |ws|
    && Ascending(remaining) == ws[|cells|..]
    && (forall j :: 0 <= j < |cells| ==> ws[j] in windows && cells[j] == Classify(windows[ws[j]]))
  }

  lemma CellsStep(windows: map<int, real>, ws: seq<int>, cells: seq<Status>, remaining: set<int>, w: int)
    requires CellsSoFar(windows, ws, cells, remaining)
    requires w in remaining && forall x :: x in remaining ==> w <= x
    ensures CellsSoFar(windows, ws, cells + [Classify(windows[w])], remaining - {w})
    ensures |cells| < |ws|
  {
    var next := remaining - {w};
    AscendingUnfold(remaining, w);
    DropHead(ws, |cells|, w, Ascending(next));
  }

  /** The inner loop of `draw_uptime`, over one alias's windows in `BTreeMap` order. */
  method AliasCells(windows: map<int, real>) returns (cells: seq<Status>)
    ensures |cells| == |windows|
    ensures cells == CellsOf(windows)
  {
    ghost var ws := Ascending(windows.Keys);
    AscendingSpec(windows.Keys);
    cells := [];
    var remaining := windows.Keys;
    assert ws[0..] == ws;
    while remaining != {}
      invariant CellsSoFar(windows, ws, cells, remaining)
      decreases |ws| - |cells|
    {
      IntMinExists(remaining);
      var w :| w in remaining && forall x :: x in remaining ==> w <= x;
      CellsStep(windows, ws, cells, remaining, w);
      cells := cells + [Classify(windows[w])];
      remaining := remaining - {w};
    }
    CellsDone(windows, cells);
  }

  lemma CellsDone(windows: map<int, real>, cells: seq<Status>)
    requires CellsSoFar(windows, Ascending(windows.Keys), cells, {})
    ensures |cells| == |windows| && cells == CellsOf(windows)
  {
    var ws := Ascending(windows.Keys);
    AscendingSpec(windows.Keys);
    assert Ascending({}) == [];
    assert |cells| == |ws|;
  }

  ghost function LineAliases(lines: seq<AliasLine>): set<string>
  {
    set i | 0 <= i < |lines| :: lines[i].alias
  }

  /** `lines` shows `buckets`: one line per alias, in strictly ascending alias order, each
      with the symbols of that alias's windows. */
  ghost predicate RendersBuckets(lines: seq<AliasLine>, buckets: map<string, map<int, real>>)
  {
    && |lines| == |buckets.Keys|
    && LineAliases(lines) == buckets.Keys
    && (forall i, j :: 0 <= i < j < |lines| ==> StrLt(lines[i].alias, lines[j].alias))
    && (forall i :: 0 <= i < |lines| ==>
          lines[i].alias in buckets && lines[i].cells == CellsOf(buckets[lines[i].alias]))
  }

  /** The aliases already shown and those still to come partition the keys. */
  ghost predicate Covered(lines: seq<AliasLine>, remaining: set<string>, buckets: map<string, map<int, real>>)
  {
    && LineAliases(lines) + remaining == buckets.Keys
    && LineAliases(lines) !! remaining
    && |lines| + |remaining| == |buckets.Keys|
  }

  /** Every line shown so far carries the symbols of its alias's windows. */
  ghost predicate Shown(lines: seq<AliasLine>, buckets: map<string, map<int, real>>)
  {
    forall i :: 0 <= i < |lines| ==>
      lines[i].alias in buckets && lines[i].cells == CellsOf(buckets[lines[i].alias])
  }

  /** The lines so far are in ascending alias order, below every alias still to come. */
  ghost predicate Ordered(lines: seq<AliasLine>, remaining: set<string>)
  {
    && (forall i, j :: 0 <= i < j < |lines| ==> StrLt(lines[i].alias, lines[j].alias))
    && (forall i, x :: 0 <= i < |lines| && x in remaining ==> StrLt(lines[i].alias, x))
  }

  lemma LineAliasesSnoc(lines: seq<AliasLine>, line: AliasLine)
    ensures LineAliases(lines + [line]) == LineAliases(lines) + {line.alias}
  {
    var s := lines + [line];
    assert forall i :: 0 <= i < |lines| ==> s[i] == lines[i];
    assert s[|lines|] == line;
  }

  lemma CoveredStep(lines: seq<AliasLine>, remaining: set<string>, buckets: map<string, map<int, real>>,
                    line: AliasLine)
    requires Covered(lines, remaining, buckets) && line.alias in remaining
    ensures Covered(lines + [line], remaining - {line.alias}, buckets)
  {
    LineAliasesSnoc(lines, line);
  }

  lemma ShownStep(lines: seq<AliasLine>, buckets: map<string, map<int, real>>, line: AliasLine)
    requires Shown(lines, buckets)
    requires line.alias in buckets && line.cells == CellsOf(buckets[line.alias])
    ensures Shown(lines + [line], buckets)
  {
    var next := lines + [line];
    assert forall i :: 0 <= i < |lines| ==> next[i] == lines[i];
  }

  /** Taking the least remaining alias keeps the lines ordered. */
  lemma OrderedStep(lines: seq<AliasLine>, remaining: set<string>, line: AliasLine)
    requires Ordered(lines, remaining)
    requires line.alias in remaining && forall x :: x in remaining && x != line.alias ==> StrLt(line.alias, x)
    ensures Ordered(lines + [line], remaining - {line.alias})
  {
    var next, rest := lines + [line], remaining - {line.alias};
    assert forall i :: 0 <= i < |lines| ==> next[i] == lines[i];
    forall i, j | 0 <= i < j < |next| ensures StrLt(next[i].alias, next[j].alias) {
      if j == |lines| {
        assert StrLt(lines[i].alias, line.alias);
      }
    }
    forall i, x | 0 <= i < |next| && x in rest ensures StrLt(next[i].alias, x) {
      if i < |lines| {
        assert StrLt(lines[i].alias, x);
      }
    }
  }

  /** The outer loop of `draw_uptime`, over the aliases in `BTreeMap` order. */
  method UptimeLines(buckets: map<string, map<int, real>>) returns (lines: seq<AliasLine>)
    ensures RendersBuckets(lines, buckets)
  {
    lines := [];
    var remaining := buckets.Keys;
    while remaining != {}
      invariant Covered(lines, remaining, buckets)
      invariant Shown(lines, buckets)
      invariant Ordered(lines, remaining)
      decreases |remaining|
    {
      StrMinExists(remaining);
      var a :| a in remaining && forall x :: x in remaining && x != a ==> StrLt(a, x);
      var cells := AliasCells(buckets[a]);
      var line := AliasLine(a, cells);
      CoveredStep(lines, remaining, buckets, line);
      ShownStep(lines, buckets, line);
      OrderedStep(lines, remaining, line);
      lines := lines + [line];
      remaining := remaining - {a};
    }
  }

  /** `action` is the uptime message for `chat`: the look-back header, then the lines that
      render the buckets of the stored rows of the last hour before `now`, read in
      timestamp order. */
  ghost predicate ShowsUptime(action: Action, chat: int, metrics: seq<MetricRow>, now: int)
  {
    && action.Send? && action.chat == chat && action.text.UptimeStatus?
    && action.text.report.lookbackHours == LookbackHours
    && RendersBuckets(action.text.report.lines, BucketsOf(SortByTs(Since(metrics, now - LookbackSecs))))
  }

  /** `draw_uptime`: reads the rows of the last hour, buckets them and sends the report.
      A failed read is returned as the error, with nothing sent. The send's own result is
      ignored by the source, so it is not an input here. */
  method DrawUptime(db: Db, chat: int, now: int, queryFails: bool) returns (actions: seq<Action>, r: Result<()>)
    ensures queryFails <==> r.Err?
    ensures r.Err? ==> actions == []
    ensures r.Ok? ==> |actions| == 1 && ShowsUptime(actions[0], chat, db.metrics, now)
  {
    var q := db.QueryMetrics(now - LookbackSecs, queryFails);
    if q.Err? {
      return [], Err;
    }
    var buckets := Bucketize(q.value);
    var lines := UptimeLines(buckets);
    actions := [Send(chat, UptimeStatus(UptimeReport(LookbackHours, lines)))];
    r := Ok(());
  }

  /** The message has exactly one line per alias present in the rows, and every line has at
      least one symbol. */
  lemma {:induction false} OneLinePerAlias(rows: seq<MetricRow>, lines: seq<AliasLine>)
    requires RendersBuckets(lines, BucketsOf(rows))
    ensures |lines| == |RowAliases(rows)|
    ensures forall i :: 0 <= i < |lines| ==> |lines[i].cells| > 0
  {
    var b := BucketsOf(rows);
    assert b.Keys == RowAliases(rows);
    forall i | 0 <= i < |lines| ensures |lines[i].cells| > 0 {
      var a := lines[i].alias;
      AliasHasWindow(rows, a);
      AscendingSpec(b[a].Keys);
    }
  }

  /** An example: the rows of alias "edge1" at 0 s (loss 30), 600 s (loss 40) and
      1000 s (loss 100). */
  function ExampleRows(): seq<MetricRow>
  {
    [MetricRow("edge1", 0, 1.0, 30.0), MetricRow("edge1", 600, 1.0, 40.0),
     MetricRow("edge1", 1000, 1.0, 100.0)]
  }

  /** The example rows fall into the windows 0 and 900 of their one alias. */
  lemma ExampleGrouping()
    ensures RowAliases(ExampleRows()) == {"edge1"}
    ensures WindowsOf(ExampleRows(), "edge1") == {0, 900}
  {
    var rows := ExampleRows();
    assert WindowStart(0) == 0 && WindowStart(600) == 0 && WindowStart(1000) == 900;
    assert rows[0].alias in RowAliases(rows);
    assert WindowStart(rows[0].ts) in WindowsOf(rows, "edge1");
    assert WindowStart(rows[2].ts) in WindowsOf(rows, "edge1");
  }

  /** The example windows sum to 70 and 100. */
  lemma ExampleSums()
    ensures LossSum(ExampleRows(), "edge1", 0) == 70.0
    ensures LossSum(ExampleRows(), "edge1", 900) == 100.0
  {
    var rows := ExampleRows();
    var r0, r1 := rows[0], rows[1];
    assert WindowStart(0) == 0 && WindowStart(600) == 0 && WindowStart(1000) == 900;
    assert rows[..2] == [r0, r1] && [r0, r1][..1] == [r0] && [r0][..0] == [];
    assert LossSum([r0], "edge1", 0) == 30.0 && LossSum([r0], "edge1", 900) == 0.0;
    assert LossSum([r0, r1], "edge1", 0) == 70.0 && LossSum([r0, r1], "edge1", 900) == 0.0;
  }

  /** The example end to end: the windows 0 (sum 70) and 900 (sum 100) show yellow
      and red, in that order. */
  lemma Example()
    ensures BucketsOf(ExampleRows()) == map["edge1" := map[0 := 70.0, 900 := 100.0]]
    ensures CellsOf(BucketsOf(ExampleRows())["edge1"]) == [Yellow, Red]
  {
    var rows := ExampleRows();
    ExampleGrouping();
    ExampleSums();
    var inner := map[0 := 70.0, 900 := 100.0];
    assert Windows(rows, "edge1") == inner;
    assert BucketsOf(rows) == map["edge1" := inner];
    ExampleCells(inner);
  }

  /** The windows 0 (sum 70) and 900 (sum 100) show yellow and red, in that order. */
  lemma ExampleCells(inner: map<int, real>)
    requires inner == map[0 := 70.0, 900 := 100.0]
    ensures CellsOf(inner) == [Yellow, Red]
  {
    AscendingSpec(inner.Keys);
    var ws := Ascending(inner.Keys);
    assert inner.Keys == {0, 900};
    assert ws == [0, 900];
  }
}
