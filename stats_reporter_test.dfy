/**
 * The scenario of pkg/logmonitor/stats_reporter_test.go, replayed on the
 * model: report every second, a two-second window, two hits per second
 * (so the alert fires at four hits).  Four "api" records and two "report"
 * records arrive at t0; the alert is raised by the fourth record.  The
 * report at t0+1s names only "api", with four hits; the report at t0+2s is
 * empty, and the clear timer, armed for t0+2s, clears the alert with an
 * empty window.
 */
module StatsReporterScenario {
  import opened Optional
  import opened Clock
  import opened LogLine
  import opened StatsReporting

  function Hit(section: string, t: Instant): LogRecord
  {
    LogRecord(t, "", "", "", "", "", "", section)
  }

  const TestConfig := Config(1 * Second, 2 * Second, 2)

  /** Three "api" records at t0 on a fresh engine: below alertMax, nothing reaches the sink. */
  method ApiHitsBelowThreshold(sp: StatsReporter, t0: Instant)
    requires sp.Valid() && sp.config == TestConfig && sp.alertMax == 4
    requires sp.logTimes == [] && sp.sectMap == map[] && !sp.alertActive && sp.calls == []
    modifies sp
    ensures sp.Valid()
    ensures sp.logTimes == [t0, t0, t0] && !sp.alertActive && sp.calls == []
    ensures sp.sectMap == map["api" := SectionRecord("api", 3)]
  {
    sp.OnRecord(Hit("api", t0), t0);
    assert sp.sectMap == map["api" := SectionRecord("api", 1)];
    sp.OnRecord(Hit("api", t0), t0);
    assert sp.sectMap == map["api" := SectionRecord("api", 2)];
    sp.OnRecord(Hit("api", t0), t0);
  }

  /** The fourth "api" record reaches alertMax and raises the alert with four hits. */
  method ApiBurst(sp: StatsReporter, t0: Instant)
    requires sp.Valid() && sp.config == TestConfig && sp.alertMax == 4
    requires sp.logTimes == [] && sp.sectMap == map[] && !sp.alertActive && sp.calls == []
    modifies sp
    ensures sp.Valid()
    ensures sp.logTimes == [t0, t0, t0, t0] && sp.alertActive && sp.calls == [SetAlert(4, t0)]
    ensures sp.sectMap == map["api" := SectionRecord("api", 4)]
  {
    ApiHitsBelowThreshold(sp, t0);
    sp.OnRecord(Hit("api", t0), t0);
  }

  /** Two "report" records at t0 while the alert is on: no new sink call. */
  method ReportBurst(sp: StatsReporter, t0: Instant)
    requires sp.Valid() && sp.config == TestConfig && sp.alertMax == 4
    requires sp.logTimes == [t0, t0, t0, t0] && sp.alertActive && sp.calls == [SetAlert(4, t0)]
    requires sp.sectMap == map["api" := SectionRecord("api", 4)]
    modifies sp
    ensures sp.Valid()
    ensures sp.logTimes == [t0, t0, t0, t0, t0, t0] && sp.alertActive && sp.calls == [SetAlert(4, t0)]
    ensures sp.sectMap == map["api" := SectionRecord("api", 4), "report" := SectionRecord("report", 2)]
  {
    sp.OnRecord(Hit("report", t0), t0);
    sp.OnRecord(Hit("report", t0), t0);
  }

  /** The report at t0+1s names "api" alone, with its four hits. */
  method FirstReport(sp: StatsReporter, t0: Instant)
    requires sp.Valid()
    requires sp.calls == [SetAlert(4, t0)]
    requires sp.sectMap == map["api" := SectionRecord("api", 4), "report" := SectionRecord("report", 2)]
    modifies sp
    ensures sp.Valid() && sp.sectMap == map[]
    ensures sp.calls == [SetAlert(4, t0), ReportBusiestSections([SectionRecord("api", 4)])]
    ensures sp.logTimes == old(sp.logTimes) && sp.alertActive == old(sp.alertActive)
  {
    ghost var table := sp.sectMap;
    assert Busiest(table) == {"api"} by {
      assert table["report"].count < table["api"].count;
    }
    sp.ReportStats();
    ghost var sent := sp.calls[1].sections;
    assert |sent| == 1 && sent[0].name in Names(sent);
    assert sent[0] == table["api"];
    assert sent == [sent[0]];
  }

  /** At t0+2s the report is empty and the clear timer clears the alert with an empty window. */
  method SecondReportAndClear(sp: StatsReporter, t0: Instant)
    requires sp.Valid() && sp.config == TestConfig && sp.alertMax == 4
    requires sp.logTimes == [t0, t0, t0, t0, t0, t0] && sp.alertActive && sp.sectMap == map[]
    modifies sp
    ensures sp.calls == old(sp.calls) + [ReportBusiestSections([]), ClearAlert(0, t0 + 2 * Second)]
    ensures !sp.alertActive && sp.logTimes == []
  {
    sp.ReportStats();
    assert sp.clearDeadline == Some(t0 + 2 * Second);
    ghost var window := sp.logTimes;
    sp.OnClearTimer(t0 + 2 * Second);
    PrunedAllYoung(window, t0 + 2 * Second, 2 * Second);
    PrunedShape(window, t0 + 2 * Second, 2 * Second);
  }

  method ReportAlertScenario(t0: Instant)
  {
    assert WholeSeconds(2 * Second) == 2;
    var sp := new StatsReporter(TestConfig);
    ApiBurst(sp, t0);
    ReportBurst(sp, t0);
    FirstReport(sp, t0);
    SecondReportAndClear(sp, t0);
    assert sp.calls == [SetAlert(4, t0), ReportBusiestSections([SectionRecord("api", 4)]),
                        ReportBusiestSections([]), ClearAlert(0, t0 + 2 * Second)];
  }
}
