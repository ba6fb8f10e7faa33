/** What the job list built from a configuration contains, the jobs the
    shipped configurations register, and the life-cycle invariant. */
module SchedulerFacts {
  import opened Options
  import opened PyText
  import opened SchedulerConfig
  import opened Scheduler

  /** A custom job entry that registers a job: enabled, with an interval
      ending in `h` or `m`. */
  predicate Registers(spec: CustomJobSpec) {
    var interval := spec.interval.GetOr("1h");
    spec.enabled.GetOr(true) && |interval| > 0 && interval[|interval| - 1] in {'h', 'm'}
  }

  function CountRegistering(specs: seq<CustomJobSpec>): nat {
    if specs == [] then 0 else (if Registers(specs[0]) then 1 else 0) + CountRegistering(specs[1..])
  }

  /** A custom entry makes a job or raises exactly when it registers, and
      raises exactly when the number before the unit is not an integer. */
  lemma CustomJobCases(spec: CustomJobSpec)
    ensures CustomJob(spec).NoJob? <==> !Registers(spec)
    ensures CustomJob(spec).Raises? <==>
              Registers(spec) && ParseInt(spec.interval.GetOr("1h")[..|spec.interval.GetOr("1h")| - 1]).None?
    ensures CustomJob(spec).Raises? ==> CustomJob(spec).error == BadInterval(spec.interval.GetOr("1h"))
  {
  }

  /** Entry `k` is the first whose interval `int()` refuses. */
  predicate FirstRaise(specs: seq<CustomJobSpec>, k: int) {
    && 0 <= k < |specs| && CustomJob(specs[k]).Raises?
    && forall m :: 0 <= m < k ==> !CustomJob(specs[m]).Raises?
  }

  /** Without an exception, every registering entry adds one job; after one,
      the jobs kept are those of the registering entries before the entry that
      raised. Custom jobs are never daily or hourly ones. */
  lemma {:induction false} CustomJobsCount(specs: seq<CustomJobSpec>)
    ensures CustomJobs(specs).error.None? ==> |CustomJobs(specs).jobs| == CountRegistering(specs)
    ensures CustomJobs(specs).error.Some? ==>
              exists k :: FirstRaise(specs, k) && |CustomJobs(specs).jobs| == CountRegistering(specs[..k])
    ensures forall j :: j in CustomJobs(specs).jobs ==> j.kind.EveryHours? || j.kind.EveryMinutes?
  {
    if specs != [] {
      CustomJobsCount(specs[1..]);
      CustomJobCases(specs[0]);
      if CustomJobs(specs).error.Some? {
        CustomJobsErrorSource(specs);
        var k :| 0 <= k < |specs| && CustomJob(specs[k]) == Raises(CustomJobs(specs).error.value)
                 && forall m :: 0 <= m < k ==> !CustomJob(specs[m]).Raises?;
        assert FirstRaise(specs, k);
        CustomJobsUpToError(specs, k);
      }
    }
  }

  /** The custom loop raises at the first entry whose number `int()` refuses,
      keeping the jobs of the registering entries before it. */
  lemma {:induction false} CustomJobsUpToError(specs: seq<CustomJobSpec>, k: int)
    requires FirstRaise(specs, k)
    ensures CustomJobs(specs).error == Some(CustomJob(specs[k]).error)
    ensures |CustomJobs(specs).jobs| == CountRegistering(specs[..k])
    decreases k
  {
    CustomJobCases(specs[0]);
    if k == 0 {
      assert specs[..k] == [];
    } else {
      assert FirstRaise(specs[1..], k - 1) by {
        forall m | 0 <= m < k - 1
          ensures !CustomJob(specs[1..][m]).Raises?
        {
          assert specs[1..][m] == specs[m + 1];
        }
        assert specs[1..][k - 1] == specs[k];
      }
      CustomJobsUpToError(specs[1..], k - 1);
      assert specs[..k][1..] == specs[1..][..k - 1];
      assert specs[1..][k - 1] == specs[k];
    }
  }

  /** The exception of the custom loop comes from an entry whose interval
      number `int()` refuses, and every entry before it was read without one. */
  lemma {:induction false} CustomJobsErrorSource(specs: seq<CustomJobSpec>)
    requires CustomJobs(specs).error.Some?
    ensures exists k :: 0 <= k < |specs| && CustomJob(specs[k]) == Raises(CustomJobs(specs).error.value)
                        && forall m :: 0 <= m < k ==> !CustomJob(specs[m]).Raises?
  {
    if CustomJob(specs[0]).Raises? {
      assert CustomJob(specs[0]) == Raises(CustomJobs(specs).error.value);
    } else {
      CustomJobsErrorSource(specs[1..]);
      var k :| 0 <= k < |specs[1..]| && CustomJob(specs[1..][k]) == Raises(CustomJobs(specs[1..]).error.value)
                && forall m :: 0 <= m < k ==> !CustomJob(specs[1..][m]).Raises?;
      assert CustomJob(specs[k + 1]) == Raises(CustomJobs(specs).error.value);
      forall m | 0 <= m < k + 1
        ensures !CustomJob(specs[m]).Raises?
      {
        if m > 0 {
          assert specs[m] == specs[1..][m - 1];
        }
      }
    }
  }

  /** A daily job is registered exactly when the `daily_scraping` section
      exists and does not disable it. */
  lemma DailyJobIff(cfg: Config)
    ensures (exists j :: j in BuildJobs(cfg).jobs && j.kind.DailyAt?) <==>
              cfg.daily.Some? && cfg.daily.value.enabled.GetOr(true)
  {
    if cfg.daily.Some? {
      CustomJobsCount(cfg.customJobs.GetOr([]));
      var d := cfg.daily.value;
      if d.enabled.GetOr(true) {
        assert BuildJobs(cfg).jobs[0].kind.DailyAt?;
      }
    }
  }

  /** An hourly job is registered exactly when the daily section exists (its
      absence raises first) and the `hourly_scraping` section enables it. */
  lemma HourlyJobIff(cfg: Config)
    ensures (exists j :: j in BuildJobs(cfg).jobs && j.kind.Hourly?) <==>
              cfg.daily.Some? && cfg.hourly.Some? && cfg.hourly.value.enabled.GetOr(false)
  {
    if cfg.daily.Some? {
      CustomJobsCount(cfg.customJobs.GetOr([]));
      var built := BuildJobs(cfg);
      var head := DailyJobs(cfg.daily.value);
      if cfg.hourly.Some? && cfg.hourly.value.enabled.GetOr(false) {
        assert built.jobs[|head|].kind.Hourly?;
      }
    }
  }

  /** Without an exception, the job list holds the enabled daily job, the
      enabled hourly job and one job per registering custom entry. */
  lemma JobCount(cfg: Config)
    requires cfg.daily.Some? && BuildJobs(cfg).error.None?
    ensures |BuildJobs(cfg).jobs| ==
              (if cfg.daily.value.enabled.GetOr(true) then 1 else 0)
              + (if cfg.hourly.Some? && cfg.hourly.value.enabled.GetOr(false) then 1 else 0)
              + CountRegistering(cfg.customJobs.GetOr([]))
  {
    CustomJobsCount(cfg.customJobs.GetOr([]));
  }

  /** Every job reports an interval whose text reads back as its interval. */
  lemma JobInfoIntervalReadsBack(job: Job, nextRunOf: Job -> int)
    ensures ParseInt(InfoOf(job, nextRunOf).interval) == Some(IntervalOf(job.kind))
    ensures InfoOf(job, nextRunOf).unit == (if job.kind.EveryMinutes? then "minutes" else if job.kind.DailyAt? then "days" else "hours")
  {
    ParseIntOfIntToString(IntervalOf(job.kind));
  }

  /** The interval a custom job reports reads back as the number written in
      its configuration entry, with the entry's unit. */
  lemma CustomJobInfoMatchesEntry(spec: CustomJobSpec, nextRunOf: Job -> int)
    requires CustomJob(spec).NewJob?
    ensures var interval := spec.interval.GetOr("1h");
            var info := InfoOf(CustomJob(spec).job, nextRunOf);
            |interval| > 0
            && ParseInt(info.interval) == ParseInt(interval[..|interval| - 1])
            && info.unit == (if interval[|interval| - 1] == 'h' then "hours" else "minutes")
  {
    var interval := spec.interval.GetOr("1h");
    var job := CustomJob(spec).job;
    assert |interval| > 0 && interval[|interval| - 1] in {'h', 'm'};
    var n := ParseInt(interval[..|interval| - 1]);
    assert n.Some? && IntervalOf(job.kind) == n.value;
    ParseIntOfIntToString(n.value);
  }

  /** An enabled entry `"<n>h"` or `"<n>m"` with `n` written as `str(n)`. */
  lemma CustomJobOfNumber(spec: CustomJobSpec, n: int, unit: char)
    requires spec.enabled.GetOr(true) && unit in {'h', 'm'}
    requires spec.interval == Some(IntToString(n) + [unit])
    ensures CustomJob(spec) == NewJob(Job(if unit == 'h' then EveryHours(n) else EveryMinutes(n), spec.daysBack.GetOr(3)))
  {
    var interval := IntToString(n) + [unit];
    assert interval[..|interval| - 1] == IntToString(n);
    ParseIntOfIntToString(n);
  }

  /** `start`, `stop` and the loop's wake-up keep `running` only while the
      thread lives. */
  lemma LifecycleConsistent(s: Lifecycle, scheduled: bool, joined: bool)
    requires Consistent(s)
    ensures Consistent(StartTransition(s, scheduled))
    ensures Consistent(StopTransition(s, joined))
    ensures Consistent(WakeTransition(s))
  {
  }

  /** `SCHEDULER_CONFIG` registers only the daily job, at 09:00 with three
      days back, and scrapes three days back at startup. */
  lemma DefaultJobs()
    ensures BuildJobs(DefaultConfig) == Built([Job(DailyAt("09:00"), 3)], None)
    ensures StartupRuns(DefaultConfig) == [3]
  {
  }

  /** `DAILY_ONLY_CONFIG` registers the daily job at 08:00. */
  lemma DailyOnlyJobs()
    ensures BuildJobs(DailyOnlyConfig) == Built([Job(DailyAt("08:00"), 3)], None)
  {
  }

  /** `FREQUENT_MONITORING_CONFIG` registers daily, hourly and every 30 minutes. */
  lemma FrequentMonitoringJobs()
    ensures BuildJobs(FrequentMonitoringConfig) ==
              Built([Job(DailyAt("09:00"), 3), Job(Hourly, 1), Job(EveryMinutes(30), 1)], None)
  {
    assert NatToString(3) == "3";
    assert IntToString(30) + ['m'] == "30m";
    var spec := FrequentMonitoringConfig.customJobs.value[0];
    CustomJobOfNumber(spec, 30, 'm');
  }

  /** `BUSINESS_HOURS_CONFIG` registers daily and every 4 hours. */
  lemma BusinessHoursJobs()
    ensures BuildJobs(BusinessHoursConfig) == Built([Job(DailyAt("09:00"), 3), Job(EveryHours(4), 2)], None)
  {
    assert IntToString(4) + ['h'] == "4h";
    CustomJobOfNumber(BusinessHoursConfig.customJobs.value[0], 4, 'h');
  }

  /** `TEST_CONFIG` registers only the two-minute job. */
  lemma TestJobs()
    ensures BuildJobs(TestConfig) == Built([Job(EveryMinutes(2), 3)], None)
  {
    assert IntToString(2) + ['m'] == "2m";
    CustomJobOfNumber(TestConfig.customJobs.value[0], 2, 'm');
  }
}
