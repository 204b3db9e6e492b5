/**
 * The statistics and alerting engine (pkg/logmonitor/stats_reporter.go).
 *
 * The engine owns a sliding window of recent request timestamps, a table of
 * hits per section for the current reporting interval, the set of sections
 * tied for the most hits, and a two-state high-traffic alert.  Each case of
 * its select loop is a method here: a record arrives (OnRecord), the
 * alert-clear timer fires (OnClearTimer), the report ticker fires
 * (ReportStats).  The wall clock is the parameter `now`, the clear timer is
 * the deadline it is armed for, and the calls made on the report/alert sink
 * are recorded in the ghost trace `calls`.
 */
module StatsReporting {
  import opened Optional
  import opened Clock
  import opened LogLine

  /** The part of the monitor's configuration the engine reads. */
  datatype Config = Config(reportDuration: Duration, alertDuration: Duration, alertThreshold: int)

  /** Hits per second times whole seconds in the window: the hit count that raises the alert. */
  function AlertMax(cfg: Config): int
  {
    cfg.alertThreshold * WholeSeconds(cfg.alertDuration)
  }

  /** Hits on one section in the current reporting interval. */
  datatype SectionRecord = SectionRecord(name: string, count: int)

  /** One call on the report/alert sink. */
  datatype SinkCall =
    | ReportBusiestSections(sections: seq<SectionRecord>)
    | SetAlert(hits: int, at: Instant)
    | ClearAlert(hits: int, at: Instant)

  // ---------------------------------------------------------------------------
  // The sliding window

  /** A timestamp is still inside the window when it is less than `window` old. */
  predicate Young(t: Instant, now: Instant, window: Duration)
  {
    now - t < window
  }

  ghost predicate Sorted(ts: seq<Instant>)
  {
    forall i, j :: 0 <= i < j < |ts| ==> ts[i] <= ts[j]
  }

  /**
   * The window with its expired prefix dropped: everything from the first
   * timestamp still inside the window on.
   */
  function Pruned(ts: seq<Instant>, now: Instant, window: Duration): seq<Instant>
  {
    if ts == [] || Young(ts[0], now, window) then ts else Pruned(ts[1..], now, window)
  }

  /**
   * Pruning drops a prefix of the window, every entry of that prefix has
   * expired, and the first entry kept (if any) is young.
   */
  lemma {:induction false} PrunedShape(ts: seq<Instant>, now: Instant, window: Duration)
    ensures |Pruned(ts, now, window)| <= |ts|
    ensures Pruned(ts, now, window) == ts[|ts| - |Pruned(ts, now, window)|..]
    ensures forall i :: 0 <= i < |ts| - |Pruned(ts, now, window)| ==> !Young(ts[i], now, window)
    ensures Pruned(ts, now, window) != [] ==> Young(Pruned(ts, now, window)[0], now, window)
  {
    if ts != [] && !Young(ts[0], now, window) {
      PrunedShape(ts[1..], now, window);
      var p := Pruned(ts, now, window);
      assert ts[1..][|ts| - 1 - |p|..] == ts[|ts| - |p|..];
      forall i | 0 <= i < |ts| - |p| ensures !Young(ts[i], now, window) {
        if i > 0 {
          assert ts[i] == ts[1..][i - 1];
        }
      }
    }
  }

  /** The prefix that is all expired and ends at a young entry (or at the end) is what Pruned drops. */
  lemma {:induction false} PrunedFrom(ts: seq<Instant>, now: Instant, window: Duration, k: nat)
    requires k <= |ts|
    requires forall i :: 0 <= i < k ==> !Young(ts[i], now, window)
    requires k < |ts| ==> Young(ts[k], now, window)
    ensures Pruned(ts, now, window) == ts[k..]
  {
    if k > 0 {
      assert !Young(ts[0], now, window);
      PrunedFrom(ts[1..], now, window, k - 1);
      assert ts[1..][k - 1..] == ts[k..];
    }
  }

  /** In a sorted window every timestamp that survives pruning is young. */
  lemma PrunedAllYoung(ts: seq<Instant>, now: Instant, window: Duration)
    requires Sorted(ts)
    ensures forall i :: 0 <= i < |Pruned(ts, now, window)| ==> Young(Pruned(ts, now, window)[i], now, window)
  {
  }

  /**
   * The hysteresis rule: a sorted window that holds at least m entries still
   * holds m after pruning exactly when the m-th newest entry is young, that is,
   * before the instant that entry ages out of the window.
   */
  lemma AlertHoldsUntilDeadline(ts: seq<Instant>, now: Instant, window: Duration, m: int)
    requires Sorted(ts) && 1 <= m <= |ts|
    ensures |Pruned(ts, now, window)| >= m <==> now < ts[|ts| - m] + window
  {
    PrunedShape(ts, now, window);
    var p := Pruned(ts, now, window);
    if |p| >= m {
      assert ts[|ts| - |p|] <= ts[|ts| - m];
    }
  }

  /**
   * Go's sort.Search(len(ts), func(i) { return now.Sub(ts[i]) < window }):
   * binary search for the first young timestamp.  On a sorted window this is
   * where the expired prefix ends; on any window the result sits between an
   * expired entry and a young one.
   */
  method SearchYoung(ts: seq<Instant>, now: Instant, window: Duration) returns (idx: nat)
    ensures idx <= |ts|
    ensures idx < |ts| ==> Young(ts[idx], now, window)
    ensures 0 < idx ==> !Young(ts[idx - 1], now, window)
    ensures Sorted(ts) ==> ts[idx..] == Pruned(ts, now, window)
  {
    var i, j := 0, |ts|;
    while i < j
      invariant 0 <= i <= j <= |ts|
      invariant 0 < i ==> !Young(ts[i - 1], now, window)
      invariant j < |ts| ==> Young(ts[j], now, window)
      invariant Sorted(ts) ==> forall k :: 0 <= k < i ==> !Young(ts[k], now, window)
    {
      var h := (i + j) / 2;
      if !Young(ts[h], now, window) {
        i := h + 1;
      } else {
        j := h;
      }
    }
    idx := i;
    if Sorted(ts) {
      PrunedFrom(ts, now, window, idx);
    }
  }

  // ---------------------------------------------------------------------------
  // The busiest-section tracker

  function CountOf(sectMap: map<string, SectionRecord>, section: string): int
  {
    if section in sectMap then sectMap[section].count else 0
  }

  /** The table after one more hit on `section`: its count goes up by one, or starts at one. */
  function Bumped(sectMap: map<string, SectionRecord>, section: string): map<string, SectionRecord>
  {
    sectMap[section := SectionRecord(section, CountOf(sectMap, section) + 1)]
  }

  /** A hit adds its section to the table if absent, raises its count by one, and no other count moves. */
  lemma BumpedCounts(sectMap: map<string, SectionRecord>, section: string)
    ensures Bumped(sectMap, section).Keys == sectMap.Keys + {section}
    ensures CountOf(Bumped(sectMap, section), section) == CountOf(sectMap, section) + 1
    ensures forall k :: k != section ==> CountOf(Bumped(sectMap, section), k) == CountOf(sectMap, k)
  {
  }

  /** The sections of the table that no other section beats. */
  ghost function Busiest(sectMap: map<string, SectionRecord>): set<string>
  {
    set k | k in sectMap && forall j :: j in sectMap ==> sectMap[j].count <= sectMap[k].count
  }

  /**
   * The tracker's invariant: every entry is keyed by its own name and has at
   * least one hit; no count exceeds maxVisit; mostVisited is exactly the
   * sections whose count is maxVisit; and the table is empty exactly when
   * mostVisited is (after a reset, maxVisit keeps a stale value).
   */
  ghost predicate Tallied(sectMap: map<string, SectionRecord>, mostVisited: set<string>, maxVisit: int)
  {
    && (forall k :: k in sectMap ==> sectMap[k].name == k && 1 <= sectMap[k].count <= maxVisit)
    && (forall k :: k in mostVisited <==> k in sectMap && sectMap[k].count == maxVisit)
    && (sectMap == map[] <==> mostVisited == {})
  }

  /** The tracker's mostVisited is the busiest set of its table, and maxVisit its top count. */
  lemma TalliedIsBusiest(sectMap: map<string, SectionRecord>, mostVisited: set<string>, maxVisit: int)
    requires Tallied(sectMap, mostVisited, maxVisit)
    ensures mostVisited == Busiest(sectMap)
    ensures forall k :: k in mostVisited ==> sectMap[k].count == maxVisit
  {
  }

  /** A hit that beats maxVisit, or the first hit of the interval, makes its section the sole leader. */
  lemma NewLeader(sectMap: map<string, SectionRecord>, mostVisited: set<string>, maxVisit: int, section: string)
    requires Tallied(sectMap, mostVisited, maxVisit)
    requires mostVisited == {} || CountOf(sectMap, section) + 1 > maxVisit
    ensures Tallied(Bumped(sectMap, section), {section}, CountOf(sectMap, section) + 1)
  {
  }

  /** A hit that draws level with maxVisit adds its section to the leaders. */
  lemma JoinLeaders(sectMap: map<string, SectionRecord>, mostVisited: set<string>, maxVisit: int, section: string)
    requires Tallied(sectMap, mostVisited, maxVisit)
    requires mostVisited != {} && CountOf(sectMap, section) + 1 == maxVisit && section !in mostVisited
    ensures Tallied(Bumped(sectMap, section), mostVisited + {section}, maxVisit)
  {
  }

  /** A hit that stays below maxVisit leaves the leaders as they are. */
  lemma BelowLeaders(sectMap: map<string, SectionRecord>, mostVisited: set<string>, maxVisit: int, section: string)
    requires Tallied(sectMap, mostVisited, maxVisit)
    requires mostVisited != {} && CountOf(sectMap, section) + 1 < maxVisit
    ensures Tallied(Bumped(sectMap, section), mostVisited, maxVisit)
  {
  }

  function Names(sects: seq<SectionRecord>): set<string>
  {
    set i | 0 <= i < |sects| :: sects[i].name
  }

  lemma NamesAppend(sects: seq<SectionRecord>, r: SectionRecord)
    ensures Names(sects + [r]) == Names(sects) + {r.name}
  {
    var s := sects + [r];
    forall n | n in Names(s) ensures n in Names(sects) + {r.name} {
      var i :| 0 <= i < |s| && s[i].name == n;
      if i < |sects| {
        assert sects[i].name == n;
      }
    }
    forall n | n in Names(sects) ensures n in Names(s) {
      var i :| 0 <= i < |sects| && sects[i].name == n;
      assert s[i].name == n;
    }
    assert s[|sects|].name == r.name;
  }

  /**
   * The list reportStats hands to the sink: one record per member of the
   * busiest set, no section twice, each taken from the table.
   */
  ghost predicate ReportsBusiest(sects: seq<SectionRecord>, sectMap: map<string, SectionRecord>)
  {
    && Names(sects) == Busiest(sectMap) && |sects| == |Busiest(sectMap)|
    && (forall i, j :: 0 <= i < j < |sects| ==> sects[i].name != sects[j].name)
    && (forall i :: 0 <= i < |sects| ==> sects[i].name in sectMap && sects[i] == sectMap[sects[i].name])
  }

  /**
   * The report loop's invariant: the records collected so far come from the
   * table, one per section, and with the sections still to visit they make
   * up mostVisited.
   */
  ghost predicate Collected(sects: seq<SectionRecord>, rest: set<string>,
                            sectMap: map<string, SectionRecord>, mostVisited: set<string>)
  {
    && rest <= mostVisited
    && Names(sects) + rest == mostVisited && Names(sects) !! rest
    && |sects| + |rest| == |mostVisited|
    && (forall i, j :: 0 <= i < j < |sects| ==> sects[i].name != sects[j].name)
    && (forall i :: 0 <= i < |sects| ==> sects[i].name in sectMap && sects[i] == sectMap[sects[i].name])
  }

  lemma CollectStep(sects: seq<SectionRecord>, rest: set<string>,
                    sectMap: map<string, SectionRecord>, mostVisited: set<string>, k: string)
    requires Collected(sects, rest, sectMap, mostVisited)
    requires k in rest && k in sectMap && sectMap[k].name == k
    ensures Collected(sects + [sectMap[k]], rest - {k}, sectMap, mostVisited)
  {
    var sects' := sects + [sectMap[k]];
    NamesAppend(sects, sectMap[k]);
    forall i, j | 0 <= i < j < |sects'| ensures sects'[i].name != sects'[j].name {
      if j == |sects| {
        assert sects[i].name in Names(sects);
      }
    }
  }

  /**
   * The loop of reportStats: one record from the table for each member of
   * mostVisited, in the unspecified order in which Go ranges over a map.
   */
  method CollectSections(sectMap: map<string, SectionRecord>, mostVisited: set<string>) returns (sects: seq<SectionRecord>)
    requires mostVisited <= sectMap.Keys
    requires forall k :: k in sectMap ==> sectMap[k].name == k
    ensures |sects| == |mostVisited| && Names(sects) == mostVisited
    ensures forall i, j :: 0 <= i < j < |sects| ==> sects[i].name != sects[j].name
    ensures forall i :: 0 <= i < |sects| ==> sects[i] == sectMap[sects[i].name]
  {
    sects := [];
    var rest := mostVisited;
    while rest != {}
      invariant Collected(sects, rest, sectMap, mostVisited)
      decreases rest
    {
      var k :| k in rest;
      CollectStep(sects, rest, sectMap, mostVisited, k);
      sects := sects + [sectMap[k]];
      rest := rest - {k};
    }
  }

  /** The sink call that reports a change of alert state, if any. */
  function Transition(wasActive: bool, isActive: bool, hits: int, now: Instant): seq<SinkCall>
  {
    if !wasActive && isActive then [SetAlert(hits, now)]
    else if wasActive && !isActive then [ClearAlert(hits, now)]
    else []
  }

  // ---------------------------------------------------------------------------
  // The engine

  class StatsReporter {
    const config: Config
    const alertMax: int
    var logTimes: seq<Instant>
    var sectMap: map<string, SectionRecord>
    var mostVisited: set<string>
    var maxVisit: int
    var alertActive: bool
    /** The alert-clear timer: the instant it is armed for, or None when stopped. */
    var clearDeadline: Option<Instant>
    /** Every call made on the report/alert sink, oldest first. */
    ghost var calls: seq<SinkCall>

    /** The invariant between two wakes of the loop, except for the clear deadline's value. */
    ghost predicate Consistent()
      reads this
    {
      && alertMax >= 1
      && Sorted(logTimes)
      && Tallied(sectMap, mostVisited, maxVisit)
      && (alertActive <==> clearDeadline.Some?)
      && (alertActive ==> |logTimes| >= alertMax)
    }

    /**
     * The invariant between two wakes: while the alert is active the window
     * holds at least alertMax entries and the clear timer is armed for the
     * instant the alertMax-th newest entry ages out.
     */
    ghost predicate Valid()
      reads this
    {
      && Consistent()
      && (alertActive ==> clearDeadline.value == logTimes[|logTimes| - alertMax] + config.alertDuration)
    }

    /**
     * What checkAlerts(now) did, given the window, alert state and sink trace
     * it started from: below alertMax nothing changes; otherwise the expired
     * prefix is dropped and the alert is on exactly when alertMax entries
     * remain; a change of state is reported to the sink with the window size.
     */
    ghost predicate AlertChecked(ts0: seq<Instant>, active0: bool, calls0: seq<SinkCall>, now: Instant)
      reads this
    {
      && (|ts0| < alertMax ==> logTimes == ts0 && alertActive == active0)
      && (|ts0| >= alertMax ==>
            logTimes == Pruned(ts0, now, config.alertDuration) && alertActive == (|logTimes| >= alertMax))
      && calls == calls0 + Transition(active0, alertActive, |logTimes|, now)
    }

    /** newStatsReporter: empty window and table, alert off, clear timer stopped. */
    constructor (cfg: Config)
      requires AlertMax(cfg) >= 1
      ensures Valid()
      ensures config == cfg && alertMax == AlertMax(cfg)
      ensures logTimes == [] && sectMap == map[] && mostVisited == {} && maxVisit == 0
      ensures !alertActive && clearDeadline == None && calls == []
    {
      config := cfg;
      alertMax := AlertMax(cfg);
      logTimes := [];
      sectMap := map[];
      mostVisited := {};
      maxVisit := 0;
      alertActive := false;
      clearDeadline := None;
      calls := [];
    }

    /** checkAlerts: prune the window and raise or clear the alert. */
    method CheckAlerts(now: Instant)
      requires Consistent()
      modifies this
      ensures Valid()
      ensures AlertChecked(old(logTimes), old(alertActive), old(calls), now)
      ensures alertActive ==> now < clearDeadline.value
      ensures sectMap == old(sectMap) && mostVisited == old(mostVisited) && maxVisit == old(maxVisit)
    {
      if |logTimes| < alertMax {
        return;
      }
      var idx := SearchYoung(logTimes, now, config.alertDuration);
      PrunedAllYoung(logTimes, now, config.alertDuration);
      logTimes := logTimes[idx..];
      if |logTimes| >= alertMax {
        if !alertActive {
          calls := calls + [SetAlert(|logTimes|, now)];
          alertActive := true;
        }
        var diff := |logTimes| - alertMax;
        clearDeadline := Some(logTimes[diff] + config.alertDuration);
      } else {
        if alertActive {
          calls := calls + [ClearAlert(|logTimes|, now)];
          alertActive := false;
          clearDeadline := None;
        }
      }
    }

    /**
     * A record arrives at `now`.  A record younger than alertDuration joins
     * the window and triggers an alert check; one younger than
     * reportDuration counts one hit for its section.
     */
    method OnRecord(rec: LogRecord, now: Instant)
      requires Valid()
      requires Young(rec.timestamp, now, config.alertDuration) && logTimes != [] ==>
                 logTimes[|logTimes| - 1] <= rec.timestamp
      modifies this
      ensures Valid()
      ensures Young(rec.timestamp, now, config.alertDuration) ==>
                AlertChecked(old(logTimes) + [rec.timestamp], old(alertActive), old(calls), now)
      ensures !Young(rec.timestamp, now, config.alertDuration) ==>
                logTimes == old(logTimes) && alertActive == old(alertActive) &&
                clearDeadline == old(clearDeadline) && calls == old(calls)
      ensures old(alertActive) && now < old(clearDeadline).value ==> alertActive
      ensures Young(rec.timestamp, now, config.reportDuration) ==>
                sectMap == Bumped(old(sectMap), rec.section)
      ensures !Young(rec.timestamp, now, config.reportDuration) ==>
                sectMap == old(sectMap) && mostVisited == old(mostVisited) && maxVisit == old(maxVisit)
    {
      var age := now - rec.timestamp;
      if age < config.alertDuration {
        ghost var ts := logTimes + [rec.timestamp];
        logTimes := logTimes + [rec.timestamp];
        if old(alertActive) {
          assert ts[|ts| - (alertMax + 1)] == old(logTimes)[|old(logTimes)| - alertMax];
          AlertHoldsUntilDeadline(ts, now, config.alertDuration, alertMax + 1);
        }
        CheckAlerts(now);
      }
      if age >= config.reportDuration {
        return;
      }
      CountHit(rec.section);
    }

    /**
     * One more hit on `section` in the current interval, and the busiest set
     * kept up to date incrementally: a count that beats maxVisit (or the first
     * hit of the interval) makes a new sole leader, one that draws level joins
     * the leaders, and a lower one changes nothing.
     */
    method CountHit(section: string)
      requires Valid()
      modifies this
      ensures Valid()
      ensures sectMap == Bumped(old(sectMap), section)
      ensures logTimes == old(logTimes) && alertActive == old(alertActive)
      ensures clearDeadline == old(clearDeadline) && calls == old(calls)
    {
      var count := CountOf(sectMap, section) + 1;
      sectMap := sectMap[section := SectionRecord(section, count)];
      if |mostVisited| == 0 || count > maxVisit {
        NewLeader(old(sectMap), old(mostVisited), old(maxVisit), section);
        mostVisited := {section};
        maxVisit := count;
      } else if count == maxVisit && section !in mostVisited {
        JoinLeaders(old(sectMap), old(mostVisited), old(maxVisit), section);
        mostVisited := mostVisited + {section};
      } else {
        BelowLeaders(old(sectMap), old(mostVisited), old(maxVisit), section);
      }
    }

    /**
     * The alert-clear timer fires at `now`, no earlier than it was armed for.
     * The window has then lost its alertMax-th newest entry, so the alert
     * clears and the timer stays stopped.
     */
    method OnClearTimer(now: Instant)
      requires Valid()
      requires clearDeadline.Some? && clearDeadline.value <= now
      modifies this
      ensures Valid()
      ensures AlertChecked(old(logTimes), old(alertActive), old(calls), now)
      ensures |logTimes| < alertMax && !alertActive && clearDeadline == None
      ensures calls == old(calls) + [ClearAlert(|logTimes|, now)]
      ensures sectMap == old(sectMap) && mostVisited == old(mostVisited) && maxVisit == old(maxVisit)
    {
      AlertHoldsUntilDeadline(logTimes, now, config.alertDuration, alertMax);
      CheckAlerts(now);
    }

    /**
     * The report ticker fires: the busiest sections go to the sink, every one
     * with the top count, then the table and the busiest set are reset.
     */
    method ReportStats()
      requires Valid()
      modifies this
      ensures Valid()
      ensures sectMap == map[] && mostVisited == {}
      ensures |calls| == |old(calls)| + 1 && calls[..|old(calls)|] == old(calls)
      ensures calls[|old(calls)|].ReportBusiestSections?
      ensures ReportsBusiest(calls[|old(calls)|].sections, old(sectMap))
      ensures forall r :: r in calls[|old(calls)|].sections ==> r.count == old(maxVisit)
      ensures calls[|old(calls)|].sections == [] <==> old(sectMap) == map[]
      ensures logTimes == old(logTimes) && alertActive == old(alertActive)
      ensures clearDeadline == old(clearDeadline) && maxVisit == old(maxVisit)
    {
      TalliedIsBusiest(sectMap, mostVisited, maxVisit);
      var sects := CollectSections(sectMap, mostVisited);
      calls := calls + [ReportBusiestSections(sects)];
      sectMap := map[];
      mostVisited := {};
    }
  }
}
