# logmonitor statistics and alerting engine, in Dafny

This project models the core of `logmonitor`, a tool that tails an HTTP
access log and derives two live signals from it:

- the URL sections with the most hits in each reporting interval, with ties
  reported together;
- a high-traffic alert. The alert is raised when a sliding window of recent
  request timestamps holds `alertMax` entries. It is cleared at the exact
  instant the window falls below that count again.

Two source files are modelled:

- `pkg/logmonitor/log_record.go` (module `LogLine`, file `log_record.dfy`).
  It decodes one NCSA Common Log Format line into a `LogRecord`. The line is
  split on single spaces. The bracketed timestamp is cut out of fields 3 and
  4, and the method and protocol are cut out of the quoted request line. The
  "section" is the path up to, not including, the first `/` after its first
  character, unless that `/` is the second character; with no such `/`, it is
  the whole path. This part is written as
  pure functions and lemmas. `time.Parse` is a parameter
  `parseTime: string -> Option<Instant>`, left uninterpreted.
- `pkg/logmonitor/stats_reporter.go` (module `StatsReporting`, file
  `stats_reporter.dfy`). It is modelled as the class `StatsReporter`, with the
  fields of the Go struct:
  - `logTimes`, the window of timestamps;
  - `sectMap`, section → `SectionRecord(name, count)`;
  - `mostVisited` and `maxVisit`, the busiest set and its count;
  - `alertActive`, the alert state.

  Each case of the `select` loop is a method that the environment may call:
  - `OnRecord` is a record arriving;
  - `OnClearTimer` is the alert-clear timer firing;
  - `ReportStats` is the report ticker firing.

  `checkAlerts` is `CheckAlerts`. The table update of the record branch is
  factored out as `CountHit`. The wall clock `time.Now()` is the parameter
  `now`. The clear timer is the field `clearDeadline`, the instant it is
  armed for, or `None` when it is stopped. Calls on the `ReportAlertApi` sink
  are appended to the ghost trace `calls`.

Supporting modules:

- `Clock` (`clock.dfy`): instants and durations are integer nanoseconds, like
  Go's `time.Time` and `time.Duration`. `WholeSeconds` is Go's truncating
  `Duration / time.Second`.
- `Optional` (`optional.dfy`): the `Option` type.
- `StatsReporterScenario` (`stats_reporter_test.dfy`): replays the scenario of
  `TestReportAlert` on the model, proving the exact sequence of sink calls.

The class invariant `Valid()` holds between two wakes of the loop. It states:

- the window is sorted;
- `mostVisited` is exactly the set of sections whose count is `maxVisit`, and
  no count exceeds `maxVisit` (`Tallied`);
- the table is empty exactly when `mostVisited` is empty;
- the alert is active exactly when the clear timer is armed;
- while the alert is active, the window holds at least `alertMax` entries;
- while the alert is active, the timer is armed for
  `logTimes[len - alertMax] + alertDuration`.

Two consequences of the code are worth keeping in mind:

- In `TestReportAlert` the fourth record raises the alert with
  `SetAlert(4, t0)`, because `checkAlerts` runs on every record
  (stats_reporter.go:86) and fires as soon as the window reaches `alertMax`.
- `alertMax` is the threshold times the whole seconds of `AlertDuration`,
  truncated toward zero (stats_reporter.go:70).

## Model

| member | source | states |
|---|---|---|
| `Clock.WholeSeconds` | pkg/logmonitor/stats_reporter.go:70 | `AlertDuration / time.Second` is the whole number of seconds in the window, truncated toward zero for either sign |
| `LogLine.Index` | pkg/logmonitor/log_record.go:33 | `strings.Index` returns the first position of the character, or -1 exactly when it does not occur |
| `LogLine.Split` | pkg/logmonitor/log_record.go:22 | `strings.Split` yields one more piece than there are separators; no piece holds the separator; joining the pieces gives back the line |
| `LogLine.SplitJoin` | pkg/logmonitor/log_record.go:22 | splitting a join of separator-free pieces gives back exactly those pieces |
| `LogLine.Section` | pkg/logmonitor/log_record.go:32-35 | the section is a prefix of the path; it is the whole path exactly when the path has no `/` after its second character or its second character is `/`; otherwise it stops just before the first such `/` and holds no `/` after its first character |
| `LogLine.ParseLogLine` | pkg/logmonitor/log_record.go:21-26 | a line is rejected as invalid exactly when it has fewer than nine spaces (ten fields); a parsed record's path holds no space and its section is a prefix of its path |
| `LogLine.TimeText` | pkg/logmonitor/log_record.go:27 | the text handed to `time.Parse` is field 3 less its first character, a space, and field 4 less its last character: putting those two characters back gives the two fields joined by a space |
| `LogLine.DecodeFields` | pkg/logmonitor/log_record.go:23-45 | fewer than ten fields is the invalid-line error; an empty field 3 or 4 always panics; otherwise the result is `BadTimestamp` exactly when `parseTime` rejects the time text; an empty field 5, 6 or 7 panics unless the timestamp was rejected; with fields 3 to 7 non-empty and the time accepted a record is produced. A record's timestamp is what `parseTime` made of the time text, its address, user and status are fields 0, 2 and 8, its method and protocol are fields 5 and 7 less their first and last character, its path is field 6 and its section `Section` of it |
| `LogLine.ParseFormatLine` | pkg/logmonitor/log_record.go:21-48 | parsing a line written from space-free fields, with any non-space characters around the timestamp and the request, gives back its host, user, method, path, protocol and status, the timestamp that `time.Parse` makes of "date zone", and the section of its path; a rejected timestamp is the `BadTimestamp` error |
| `StatsReporting.PrunedShape` | pkg/logmonitor/stats_reporter.go:149-153 | pruning removes exactly a prefix of the window; every removed entry has expired; the first kept entry is young |
| `StatsReporting.PrunedFrom` | pkg/logmonitor/stats_reporter.go:150-153 | a prefix of expired entries that ends at a young entry or at the end of the window is exactly what pruning removes |
| `StatsReporting.PrunedAllYoung` | pkg/logmonitor/stats_reporter.go:149-153 | in a sorted window every kept timestamp `t` satisfies `now - t < AlertDuration` |
| `StatsReporting.SearchYoung` | pkg/logmonitor/stats_reporter.go:150-152 | `sort.Search` returns an index between an expired entry and a young one; on a sorted window it is the end of the expired prefix, so slicing there equals pruning |
| `StatsReporting.AlertHoldsUntilDeadline` | pkg/logmonitor/stats_reporter.go:154-167 | in a sorted window of at least `m` entries, at least `m` survive pruning if and only if `now` is before the `m`-th newest entry plus `AlertDuration`, the instant the clear timer is armed for |
| `StatsReporting.BumpedCounts` | pkg/logmonitor/stats_reporter.go:91-97 | a hit adds its section to the table if absent, raises its count by exactly one or starts it at one, and leaves every other count alone |
| `StatsReporting.TalliedIsBusiest` | pkg/logmonitor/stats_reporter.go:98-103 | under the tracker invariant, `mostVisited` is exactly the set of sections no other section beats, each with count `maxVisit` |
| `StatsReporting.NewLeader` | pkg/logmonitor/stats_reporter.go:98-100 | a hit that beats `maxVisit`, or the first hit after a reset, leaves that section as the only busiest one, with its count as the new maximum |
| `StatsReporting.JoinLeaders` | pkg/logmonitor/stats_reporter.go:101-102 | a hit that draws level with `maxVisit` adds its section to the busiest set and keeps the maximum |
| `StatsReporting.BelowLeaders` | pkg/logmonitor/stats_reporter.go:98-103 | a hit that stays below `maxVisit` keeps the busiest set and the maximum |
| `StatsReporting.CollectSections` | pkg/logmonitor/stats_reporter.go:118-121 | the report loop takes one record from the table per member of `mostVisited`, no section twice, and nothing else |
| `StatsReporting.StatsReporter.constructor` | pkg/logmonitor/stats_reporter.go:44-72 | a new engine has an empty window and table, the alert off and the clear timer stopped; `alertMax` is threshold times whole seconds, and must be at least 1 |
| `StatsReporting.StatsReporter.CheckAlerts` | pkg/logmonitor/stats_reporter.go:144-177 | below `alertMax` entries nothing changes. Otherwise the window becomes its pruned suffix, and the alert is on exactly when `alertMax` entries remain. `SetAlert(len, now)` is emitted exactly on off→on and `ClearAlert(len, now)` exactly on on→off. While on, the timer is armed for `logTimes[len - alertMax] + AlertDuration`, which is after `now`. The table is untouched |
| `StatsReporting.StatsReporter.OnRecord` | pkg/logmonitor/stats_reporter.go:77-103 | the timestamp is appended and the alert checked exactly when `now - ts < AlertDuration`; otherwise window, alert, timer and trace are unchanged. A record at least `ReportDuration` old leaves the table, busiest set and maximum unchanged; a younger one bumps its section. An active alert stays active while `now` is before its clear deadline |
| `StatsReporting.StatsReporter.CountHit` | pkg/logmonitor/stats_reporter.go:91-103 | the section's count goes up by one or starts at one, no other count changes, and the busiest set and maximum stay exactly the sections with the top count; the window and alert are untouched |
| `StatsReporting.StatsReporter.OnClearTimer` | pkg/logmonitor/stats_reporter.go:104-105 | when the clear timer fires at or after its deadline, the pruned window has fewer than `alertMax` entries, so the alert clears with one `ClearAlert(len, now)` call and the timer stays stopped |
| `StatsReporting.StatsReporter.ReportStats` | pkg/logmonitor/stats_reporter.go:117-126 | exactly one `ReportBusiestSections` call is emitted. It lists every busiest section once, with its table record and count `maxVisit`. The list is empty exactly when nothing was counted. Afterwards the table and busiest set are empty, and the window, alert and timer are unchanged |

## Left out

- Goroutine, channels and `select` loop (stats_reporter.go:59, 63-66, 74-115): each `select` case is a method the environment may call in any order. End-of-stream on the record channel, the exit signal and stopping the timers at exit are not modelled.
- The timer's `Stop`/drain calls (stats_reporter.go:157-159, 172-174) and `ticker.Reset` (line 108): the clear timer is an armed-for instant or nothing, so there is no stale fire to drain. `checkAlerts`' `timerEvent` argument only selects that Stop/drain, so `CheckAlerts` has no such parameter. The report ticker's period is not modelled; `ReportStats` may be called at any time.
- `StatsReporting.StatsReporter.OnRecord`: requires that a record young enough to join the window is not older than the newest timestamp already in it. The source relies on this for `sort.Search` and never checks it. Out-of-order access-log lines are not modelled.
- `StatsReporting.StatsReporter.OnClearTimer`: requires the timer to be armed and `now` to be at or after its deadline. This is what a Go timer guarantees when it fires.
- `StatsReporting.StatsReporter.constructor`: requires `alertMax >= 1`. With `alertMax <= 0`, the first young record makes `checkAlerts` index `logTimes[len - alertMax]` out of range, for example with `AlertDuration` under one second.
- Go's saturating `time.Time.Sub` and 64-bit wrap-around of `Duration` and `int`: instants, durations and counts are unbounded integers.
- Go strings are byte sequences: the model slices characters, which is the same for ASCII log lines.
- `time.Parse(timeLayout, ·)` is the uninterpreted parameter `parseTime`. The layout `"02/Jan/2006:15:04:05 +0000"` itself is not modelled.
- `reportAlerter` (stats_reporter.go:128-142) and the `String` methods only print; the sink is the trace `calls`.
- Map iteration order in `reportStats` is unspecified in Go: `CollectSections` picks members in an arbitrary order, and its contract does not fix one.
- `Config.LogFileName` and `InternalBufferSize` are not read by the engine and are not in `Config`.
- pkg/logmonitor/file_reader.go (reading, fsnotify watching, forwarding parsed lines), pkg/logmonitor/logmonitor.go (wiring) and cmd/logmonitor.go (flags and signals) are not part of this model.
