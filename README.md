# tg_prober, modelled in Dafny

tg_prober is a Telegram bot that watches a list of TCP endpoints ("targets", each an
address with a display alias). It has two main parts. A background monitor connects to
every target `probe_count` times per cycle and records one metric row (alias, timestamp,
mean latency, loss percentage) per target in a SQLite store. The bot also answers five
commands in group chats:

- `/start` and `/stop`: an administrator subscribes or unsubscribes the chat.
- `/isonline`: a subscribed chat gets a live probe report. A placeholder message is sent first, then the report is edited into it.
- `/graph`: a subscribed chat gets a latency chart.
- `/uptime`: the last hour of rows, summed per alias into 15-minute windows, with each window shown as a green, yellow or red symbol.

The model has one module per source file, plus four shared ones:

- `Wrappers`: `Option` and `Result`.
- `Order`: the key orders that the source's ordered maps iterate in.
- `Probe`: connection outcomes, sums, means and the loss percentage.
- `Chat`: the bot's replies as data.

The other modules are:

- `Database`: the store, as a class `Db`.
- `Monitor`, `Isonline`, `Uptime`, `Start`, `Stop`: the monitor and the command handlers.
- `Cmd`: the dispatcher.

State that the source changes in place is modelled as a class or a method:

- The store is a class whose `subscriptions` (a set of chat ids) and `metrics` (rows in insertion order) are updated by its methods.
- The loops of the source are methods with loop invariants, proved against reference functions: `BucketsOf`, `CellsOf`, `CycleRows`, `SummaryOf`, `ReportLines`.

The model replaces everything outside the program by inputs:

- The outcome of every connection attempt and its elapsed time (`Attempt`).
- The clock (`now`, in whole seconds since the epoch).
- Whether each store statement, Telegram request or chart drawing fails.
- Whether a probe task panicked.

Replies are returned as a sequence of `Action`s: send a message, edit the placeholder, or draw the chart.

## Model

| member | source | states |
|---|---|---|
| Database.Since | src/db.rs:101 | the rows kept are exactly those with `ts >= since`, each with its multiplicity |
| Database.InsertByTs | src/db.rs:102 | inserting into a ts-sorted sequence keeps it sorted and adds exactly the new row (multiset) |
| Database.SortByTs | src/db.rs:102 | `ORDER BY ts` yields a sequence sorted by timestamp that is a permutation of its input |
| Database.Db.Open | src/db.rs:15-37 | opening keeps the stored subscriptions and metrics (`IF NOT EXISTS`) |
| Database.Db.AddSubscription | src/db.rs:40-47 | on success the chat is in the set, so a repeated insert is ignored; on error nothing changes; the metrics are untouched |
| Database.Db.RemoveSubscription | src/db.rs:50-57 | on success the chat is no longer in the set, even if it was absent before; on error nothing changes |
| Database.Db.IsSubscribed | src/db.rs:60-68 | fails exactly when the statement fails; otherwise true exactly when the chat is subscribed |
| Database.Db.InsertMetric | src/db.rs:71-84 | on success appends exactly the one row given; on error nothing changes |
| Database.Db.QueryMetrics | src/db.rs:87-130 | fails exactly when the query fails; otherwise returns exactly the rows at or after `since`, ts-sorted, as a permutation of the stored ones |
| Probe.Aliases | src/monitor.rs:23 | one alias per target, position by position |
| Probe.MinMaxBound | src/monitor.rs:37-41 | every latency sample lies between the least and the greatest sample |
| Probe.SumAtLeast | src/monitor.rs:40 | a lower bound of every sample, times the count, bounds the latency sum from below |
| Probe.SumAtMost | src/monitor.rs:40 | an upper bound of every sample, times the count, bounds the latency sum from above |
| Probe.MeanBetween | src/monitor.rs:37-41 | the mean latency of a non-empty series lies between its least and its greatest sample |
| Probe.LossPercentBounds | src/monitor.rs:42 | the loss of `fails <= count` attempts lies in `[0, 100]`; it is 0 exactly when nothing failed and 100 exactly when everything failed |
| Monitor.TimeoutsPlusSamples | src/monitor.rs:26-36 | every attempt is counted once, either as a failure or as a latency sample |
| Monitor.NoTimeoutNoFailure | src/monitor.rs:28-32 | the monitor counts a failure only for a timeout: no failure exactly when no attempt timed out |
| Monitor.ConnectErrorIsSampled | src/monitor.rs:28-35 | a refused connection is a latency sample, appended in order, and not a failure |
| Monitor.ReduceScheduled | src/monitor.rs:24-42 | avg is 0 with no samples, otherwise the sum over the count, and lies between the least and the greatest sample; loss is timeouts over `probe_count` times 100, in `[0, 100]` |
| Monitor.CycleRows | src/monitor.rs:23-47 | a cycle yields one row per target |
| Monitor.CycleRowsShape | src/monitor.rs:22-47 | row `i` of a cycle has target `i`'s alias, the cycle's single timestamp, and the mean and loss of that target's attempts |
| Monitor.SameTimestamp | src/monitor.rs:22-44 | every row stored in one cycle carries the timestamp read once at its start |
| Monitor.SelectPartition | src/monitor.rs:44-46 | under one set of insert flags, the selected and the unselected elements of a sequence together number its elements |
| Monitor.SelectLen | src/monitor.rs:23-46 | the same insert flags select as many rows from the cycle's rows as aliases from its targets |
| Monitor.StoredPlusLogged | src/monitor.rs:23-46 | every target gets one insert, so the stored rows and the logged aliases of a cycle together number the targets |
| Monitor.SelectFrom | src/monitor.rs:44-46 | only rows and aliases of the cycle are stored or logged |
| Monitor.SelectNone | src/monitor.rs:44-46 | when no insert fails, every row of the cycle is stored in target order and nothing is logged |
| Monitor.SelectSnoc | src/monitor.rs:44-46 | one more target adds its row to exactly one of the stored rows and the logged failures |
| Monitor.ProbeTarget | src/monitor.rs:24-46 | one target's row is appended unless its insert fails; the subscriptions are untouched |
| Monitor.CycleStep | src/monitor.rs:23-47 | the loop state of a cycle grows by exactly one target's outcome |
| Monitor.CycleDone | src/monitor.rs:23-47 | after the last target, the stored rows and logged aliases are the selections of the whole cycle |
| Monitor.ProbeAll | src/monitor.rs:23-47 | the loop over targets appends exactly the rows whose insert succeeded, in target order, and returns the failed aliases in order; the subscriptions are untouched |
| Monitor.Cycle | src/monitor.rs:22-48 | the store's metrics grow by exactly the cycle's rows whose insert succeeded, in target order; the failed aliases are returned in order; stored rows plus failed aliases number the targets; the monitor then sleeps `probe_count` seconds |
| Isonline.FailuresPlusSamples | src/commands/isonline.rs:64-75 | every attempt is counted once, as a failure or as a latency sample |
| Isonline.FailuresIff | src/commands/isonline.rs:71-74 | no failure exactly when every attempt connected; no sample exactly when none connected |
| Isonline.SaturatingSub | src/commands/isonline.rs:77 | `saturating_sub` is the difference when it is non-negative and 0 otherwise |
| Isonline.SummaryFacts | src/commands/isonline.rs:62-84 | successes plus failures are the attempts; the integer mean is the floor of the mean of the samples; the loss is absent exactly for zero attempts and otherwise in `[0, 100]` |
| Isonline.ProbeTask | src/commands/isonline.rs:62-84 | the probe task's `(alias, success, total, avg, loss)` is the reference summary of its attempts |
| Isonline.LineOf | src/commands/isonline.rs:97-106 | the report line is all-success exactly when success equals total, all-failed exactly when otherwise none succeeded, partial otherwise, with the task's alias and mean, and on a partial line the task's loss |
| Isonline.LineOfAttempts | src/commands/isonline.rs:62-106 | all-success exactly when every attempt connected, all-failed exactly when none did among at least one; a partial line shows the failures as a percentage of the attempts; zero attempts give all-success with mean 0 |
| Isonline.BuildReport | src/commands/isonline.rs:95-109 | the report holds one line per completed task, in task order |
| Isonline.ReportLinesAllOk | src/commands/isonline.rs:95-109 | when every task completes, line `i` is the line of task `i` |
| Isonline.ReportLinesFrom | src/commands/isonline.rs:95-109 | the report never has more lines than tasks, every line is the line of some completed task, and every completed task's line is in the report |
| Isonline.ReportLinesInOrder | src/commands/isonline.rs:95-109 | line `k` is the line of the `k`-th completed task: the completed positions increase strictly and none is missing, so the report follows `join_all` order even when tasks panic |
| Isonline.ProbeResults | src/commands/isonline.rs:59-88 | `join_all` yields one result per target |
| Isonline.ResultsFollowTargets | src/commands/isonline.rs:59-88 | result `i` is present exactly when task `i` did not panic, and then carries target `i`'s alias |
| Isonline.SpawnProbes | src/commands/isonline.rs:57-88 | the awaited results are the per-target summaries in target order |
| Isonline.IsonlineCommand | src/commands/isonline.rs:35-115 | an unsubscribed chat, or a failed lookup, gets nothing and `Ok`; a failed placeholder ends with that error; otherwise the placeholder is later edited into the full report, and the result is `Ok` |
| Start.StartSubscribes | src/commands/start.rs:16-17 | an administrator's `/start` adds the chat; anyone else's changes nothing; other chats are unaffected |
| Start.StartIdempotent | src/commands/start.rs:17 | a repeated `/start` leaves the same subscriptions (`INSERT OR IGNORE`) |
| Start.StartCommand | src/commands/start.rs:9-21 | an administrator's `/start` subscribes the chat unless the store fails (error swallowed), and sends one confirmation whose failure is the result; anyone else gets no reply and no change |
| Stop.StopUnsubscribes | src/commands/stop.rs:16-17 | an administrator's `/stop` removes the chat; anyone else's changes nothing; other chats are unaffected |
| Stop.StopAbsent | src/commands/stop.rs:17 | stopping a chat that is not subscribed changes nothing |
| Stop.StopCommand | src/commands/stop.rs:9-21 | an administrator's `/stop` unsubscribes the chat unless the store fails (error swallowed), and sends one notice whose failure is the result; anyone else gets no reply and no change |
| Uptime.RustRem | src/commands/uptime.rs:25 | Rust's `%` takes the sign of the dividend, its magnitude is below the divisor, and dividend = q * divisor + remainder |
| Uptime.WindowStart | src/commands/uptime.rs:24-25 | the window start is a multiple of 900 within 900 seconds of the timestamp: at or below it from the epoch on, at or above it before |
| Uptime.WindowStartIsFloor | src/commands/uptime.rs:25 | from the epoch on the window start is the floor to 900 seconds, the only multiple of 900 in `(secs - 900, secs]` |
| Uptime.WindowStartMonotone | src/commands/uptime.rs:25 | later timestamps never fall in earlier windows |
| Uptime.WindowStartIdempotent | src/commands/uptime.rs:25 | a window start lies in its own window |
| Uptime.LossSumAbsent | src/commands/uptime.rs:29-34 | a bucket no row falls in sums to 0 |
| Uptime.GroupingSnoc | src/commands/uptime.rs:29-34 | one more row adds its alias and window and nothing else |
| Uptime.LossSumSnoc | src/commands/uptime.rs:33-34 | one more row adds its loss to its own bucket only |
| Uptime.OtherAliasSnoc | src/commands/uptime.rs:29-34 | one more row leaves the buckets of every other alias as they were |
| Uptime.SameAliasValue | src/commands/uptime.rs:32-34 | one more row adds its loss to its window's sum, or starts that window with it |
| Uptime.WindowsSnocSame | src/commands/uptime.rs:32-34 | the windows of the row's own alias gain the row by `and_modify`/`or_insert` |
| Uptime.WindowsEmpty | src/commands/uptime.rs:31 | an alias with no rows has no windows (`or_default`) |
| Uptime.SameAliasSnoc | src/commands/uptime.rs:29-34 | one more row updates its alias's entry exactly as `entry().or_default().entry().and_modify().or_insert()` does |
| Uptime.BucketsOfAt | src/commands/uptime.rs:29-34 | the reference buckets of a present alias are its windows |
| Uptime.BucketsOfSnoc | src/commands/uptime.rs:29-34 | the reference buckets of the rows plus one row are those of the rows updated with that row |
| Uptime.BucketsOfLookup | src/commands/uptime.rs:20-35 | the buckets have one entry per alias present, one window per window some of its rows fall in, holding exactly the sum of those rows' losses |
| Uptime.BucketizeStep | src/commands/uptime.rs:22-35 | each iteration of the accumulation loop adds one row to the reference buckets |
| Uptime.Bucketize | src/commands/uptime.rs:20-35 | the accumulated map has exactly the aliases present, exactly their windows, and each window holds exactly the sum of its rows' losses |
| Uptime.AliasHasWindow | src/commands/uptime.rs:29-34 | every alias present has at least one window |
| Uptime.Classify | src/commands/uptime.rs:63-69 | green exactly when the sum is at most 50, yellow exactly when strictly between 50 and 100, red exactly when at least 100 |
| Uptime.ClassifyMonotone | src/commands/uptime.rs:63-69 | more summed loss never shows a healthier symbol |
| Uptime.AscendingUnfold | src/commands/uptime.rs:62 | `BTreeMap` iteration starts at the least key and continues with the rest |
| Uptime.CellsStep | src/commands/uptime.rs:62-70 | classifying the least remaining window extends the symbols in key order |
| Uptime.CellsDone | src/commands/uptime.rs:62-71 | after the last window the symbols are those of all windows, in key order |
| Uptime.AliasCells | src/commands/uptime.rs:62-71 | one symbol per window, in ascending window order, each the classification of that window's sum |
| Uptime.LineAliasesSnoc | src/commands/uptime.rs:60-74 | appending a line adds exactly its alias to those shown |
| Uptime.CoveredStep | src/commands/uptime.rs:60-74 | showing a remaining alias moves it from the remaining aliases to those shown |
| Uptime.ShownStep | src/commands/uptime.rs:60-74 | a line with its alias's symbols keeps every line faithful |
| Uptime.OrderedStep | src/commands/uptime.rs:60 | taking the least remaining alias keeps the lines in ascending alias order |
| Uptime.UptimeLines | src/commands/uptime.rs:59-74 | one line per alias, in strictly ascending alias order, each with its windows' symbols in window order |
| Uptime.DrawUptime | src/commands/uptime.rs:8-77 | fails exactly when the query fails, sending nothing; otherwise it sends one message with a one-hour header that shows the buckets of all rows of the last hour |
| Uptime.OneLinePerAlias | src/commands/uptime.rs:59-74 | the message has exactly one line per alias present, and every line has at least one symbol |
| Uptime.ExampleGrouping | src/commands/uptime.rs:24-34 | rows at 0, 600 and 1000 s of one alias fall in windows 0 and 900 |
| Uptime.ExampleSums | src/commands/uptime.rs:33-34 | those windows sum to 70 and 100 |
| Uptime.Example | src/commands/uptime.rs:22-71 | those rows give the buckets `{edge1: {0: 70, 900: 100}}` and the symbols yellow, then red |
| Uptime.ExampleCells | src/commands/uptime.rs:62-69 | windows summing to 70 and 100 show yellow, then red |
| Order.StrLtIrreflexive | src/commands/uptime.rs:60 | no alias sorts before itself |
| Order.StrLtTransitive | src/commands/uptime.rs:60 | the alias order is transitive |
| Order.StrLtTotal | src/commands/uptime.rs:60 | any two distinct aliases are ordered |
| Order.StrMinExists | src/commands/uptime.rs:60 | every non-empty set of aliases has a least one, where `BTreeMap` iteration starts |
| Order.IntMinExists | src/commands/uptime.rs:62 | every non-empty set of window starts has a least one |
| Order.IntMin | src/commands/uptime.rs:62 | the least window start is in the set and below every other |
| Order.AscendingSpec | src/commands/uptime.rs:62 | the ascending enumeration lists every window start exactly once, strictly increasing |
| Order.AscendingMembers | src/commands/uptime.rs:62 | the enumeration has as many entries as the set, and exactly its members |
| Order.AscendingIncreasing | src/commands/uptime.rs:62 | the enumeration is strictly increasing |
| Cmd.AsI64 | src/cmd.rs:64 | `id as i64` lands in the `i64` range, and is the id itself or the id minus 2^64 |
| Cmd.AsI64RoundTrip | src/cmd.rs:64 | the cast loses nothing: casting back gives the id, and ids below 2^63 are unchanged |
| Cmd.AsI64Injective | src/cmd.rs:64 | distinct senders get distinct user ids |
| Cmd.RouteOf | src/cmd.rs:58-111 | a private chat or a message without a sender is ignored; otherwise each command reaches its own handler with the chat and the cast sender id |
| Cmd.GraphArm | src/cmd.rs:85-100 | only a subscribed chat (a failed lookup counts as not) gets the chart, followed by an error reply exactly when drawing fails |
| Cmd.HandleCmd | src/cmd.rs:50-113 | ignored messages change nothing and succeed; only `/start` and `/stop` change the subscriptions, each as its handler states; no command changes the metrics; only `/start`, `/stop` and `/isonline` can return an error; `/graph` and `/uptime` always succeed, and `/uptime` replies with the report or an error message; a failed `/isonline` placeholder leaves that single send as the only action |

## Left out

- The chart of `/graph` (src/commands/graph.rs) is not part of this model. Drawing it is one `DrawGraph` action, and whether it fails is an input. The unused stub `graph_command` in src/commands/isonline.rs:118-121 does nothing and is not modelled.
- `Database.Db.Open`: `Db::new` fails when the file cannot be opened or the schema statements fail (src/db.rs:17, 33). The model always opens; a store that cannot be opened never reaches the handlers, which receive the opened `Db`.
- Start-up and configuration (src/main.rs, src/config.rs) are left out. The administrators, the targets and `probe_count` are parameters.
- The TCP connections, the one-second timeouts and the elapsed-time readings are inputs (`Attempt`), and so is the clock.
- Concurrency is left out:
  - the monitor's infinite loop is modelled as one cycle (`Monitor.Cycle`), followed by its sleep length;
  - the `/isonline` background task and the per-target tasks are run inline, after the placeholder, keeping the order in which `join_all` returns the results;
  - the store's mutex and `spawn_blocking` are left out;
  - a task's panic is an input.
- The SQL text is not modelled. Timestamps are whole seconds since the epoch instead of `NaiveDateTime` values. The schema's `id` column is represented by the order of `metrics`.
- `Database.Db.QueryMetrics`: `ORDER BY ts` leaves the order of rows with equal timestamps open. The model fixes it: such rows keep their insertion order (a stable sort).
- Presentation is left out: emoji, the wording of messages, the local-time header of the report, and the `{:.1}` formatting of the loss. Replies are datatypes.
- `f64` is modelled as `real`. The report thresholds `50.0 - f64::EPSILON` and `100.0 - f64::EPSILON` equal 50 and 100 in `f64`, so the model uses those values.
- `Isonline.SummaryOf`: with zero attempts the source divides 0 by 0 and gets NaN. The model represents that loss as `None`. The NaN is never shown, because that line is all-success.
- `Monitor.ReduceScheduled`, `Monitor.Cycle`, `Monitor.ProbeAll`, `Monitor.ProbeTarget`: all four require `probe_count > 0`. With zero attempts the source computes a NaN loss (0/0, not a real), hands it to `insert_metric`, and sleeps zero seconds between cycles. What the store then does with that NaN is not modelled.
- `Isonline.SummaryOf`: the `u64` sum of latencies in src/commands/isonline.rs:79 can overflow only beyond 2^64 milliseconds. The model sums without bound.
- The `unwrap` of `Utc.timestamp_opt` at src/commands/uptime.rs:26 panics only outside chrono's date range. The model works with integer seconds and never panics there.
- The source discards the outcome of the report's `send_message` in `draw_uptime` and of the error replies in `handle_cmd`. The model does not represent a failure of those requests.
- `log::error!` and `debug!` output is left out. The aliases whose metric insert failed are returned by `Monitor.Cycle`.
- The second `stop_command` at src/commands/isonline.rs:20-32 behaves identically to src/commands/stop.rs:9-21 (only its declared result type and doc comment differ) and is never dispatched. `Stop.StopCommand` models both.
- `Cmd.HandleCmd` requires one attempt series of `probe_count` outcomes, and one task result, per target (`WellFormed`). This requirement is a property of the inputs, not of the source.
