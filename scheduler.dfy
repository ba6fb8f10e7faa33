/** `ScrapingScheduler`: the job list `schedule_jobs` builds from a
    configuration, the scraping task the jobs run, and the start/stop life
    cycle of the background loop. The job list is specified by `BuildJobs`,
    the life cycle by the transitions on `Lifecycle`. Threads, sleeping and the
    `schedule` library's clock are abstract: the thread's progress is a method
    call, and the library's next-run instants and due jobs are parameters. */
module Scheduler {
  import opened Options
  import opened PyText
  import opened SchedulerConfig

  datatype JobKind = DailyAt(time: string) | Hourly | EveryHours(hours: int) | EveryMinutes(minutes: int)

  /** A registered job: when it runs, and the `days_back` it passes to the
      scraping task. */
  datatype Job = Job(kind: JobKind, daysBack: int)

  /** The exceptions `schedule_jobs` lets through: the `KeyError` of a missing
      `daily_scraping` section and the `ValueError` of an interval whose
      number `int()` refuses. */
  datatype ScheduleError = MissingDailySection | BadInterval(interval: string)

  /** The jobs registered when `schedule_jobs` returns or raises, and what it
      raised. */
  datatype Built = Built(jobs: seq<Job>, error: Option<ScheduleError>)

  datatype CustomOutcome = NoJob | NewJob(job: Job) | Raises(error: ScheduleError)

  /** One entry of `custom_jobs`: nothing when disabled (enabled by default);
      every N hours for `"<N>h"`, every N minutes for `"<N>m"` (interval `"1h"`
      by default), nothing for any other suffix. */
  function CustomJob(spec: CustomJobSpec): (r: CustomOutcome)
    ensures r.NewJob? ==> spec.enabled.GetOr(true) && r.job.daysBack == spec.daysBack.GetOr(3)
    ensures !spec.enabled.GetOr(true) ==> r == NoJob
  {
    if !spec.enabled.GetOr(true) then NoJob
    else
      var interval := spec.interval.GetOr("1h");
      var daysBack := spec.daysBack.GetOr(3);
      if |interval| > 0 && interval[|interval| - 1] == 'h' then
        match ParseInt(interval[..|interval| - 1])
        case None => Raises(BadInterval(interval))
        case Some(n) => NewJob(Job(EveryHours(n), daysBack))
      else if |interval| > 0 && interval[|interval| - 1] == 'm' then
        match ParseInt(interval[..|interval| - 1])
        case None => Raises(BadInterval(interval))
        case Some(n) => NewJob(Job(EveryMinutes(n), daysBack))
      else NoJob
  }

  /** The loop over `custom_jobs`; it ends at the first exception, keeping the
      jobs registered before it. */
  function CustomJobs(specs: seq<CustomJobSpec>): Built {
    if specs == [] then Built([], None)
    else match CustomJob(specs[0])
      case Raises(e) => Built([], Some(e))
      case NoJob => CustomJobs(specs[1..])
      case NewJob(j) => var rest := CustomJobs(specs[1..]); Built([j] + rest.jobs, rest.error)
  }

  /** One turn of the `custom_jobs` loop, given the jobs `done` it has
      registered before position `i`. */
  lemma CustomJobsStep(specs: seq<CustomJobSpec>, i: nat, done: seq<Job>)
    requires i < |specs|
    requires CustomJobs(specs) == Built(done + CustomJobs(specs[i..]).jobs, CustomJobs(specs[i..]).error)
    ensures CustomJob(specs[i]).Raises? ==> CustomJobs(specs) == Built(done, Some(CustomJob(specs[i]).error))
    ensures CustomJob(specs[i]).NoJob? ==>
              CustomJobs(specs) == Built(done + CustomJobs(specs[i + 1..]).jobs, CustomJobs(specs[i + 1..]).error)
    ensures CustomJob(specs[i]).NewJob? ==>
              CustomJobs(specs) == Built((done + [CustomJob(specs[i]).job]) + CustomJobs(specs[i + 1..]).jobs, CustomJobs(specs[i + 1..]).error)
  {
    assert specs[i..][0] == specs[i] && specs[i..][1..] == specs[i + 1..];
    var rest := CustomJobs(specs[i + 1..]);
    if CustomJob(specs[i]).Raises? {
      assert done + [] == done;
    } else if CustomJob(specs[i]).NewJob? {
      assert done + ([CustomJob(specs[i]).job] + rest.jobs) == (done + [CustomJob(specs[i]).job]) + rest.jobs;
    }
  }

  /** The daily job, if enabled; the section must exist, since its `enabled`
      defaults to true and the section is then indexed directly. */
  function DailyJobs(daily: DailySection): seq<Job> {
    if daily.enabled.GetOr(true) then [Job(DailyAt(daily.time.GetOr("09:00")), daily.daysBack.GetOr(3))] else []
  }

  /** The hourly job, if the section exists and enables it (off by default). */
  function HourlyJobs(hourly: Option<HourlySection>): seq<Job> {
    match hourly
    case None => []
    case Some(h) => if h.enabled.GetOr(false) then [Job(Hourly, h.daysBack.GetOr(1))] else []
  }

  /** `schedule_jobs` on a cleared job list: daily, then hourly, then the
      custom jobs in order. */
  function BuildJobs(cfg: Config): (r: Built)
    ensures cfg.daily.None? ==> r.jobs == [] && r.error == Some(MissingDailySection)
  {
    match cfg.daily
    case None => Built([], Some(MissingDailySection))
    case Some(daily) =>
      var custom := CustomJobs(cfg.customJobs.GetOr([]));
      Built(DailyJobs(daily) + HourlyJobs(cfg.hourly) + custom.jobs, custom.error)
  }

  /** `days_back or self.config.get('default_days_back', 3)`: an absent or zero
      `days_back` falls back to the configured default. */
  function EffectiveDaysBack(daysBack: Option<int>, cfg: Config): (r: int)
    ensures daysBack.Some? && daysBack.value != 0 ==> r == daysBack.value
    ensures daysBack.None? || daysBack.value == 0 ==> r == cfg.defaultDaysBack.GetOr(3)
  {
    if daysBack.Some? && daysBack.value != 0 then daysBack.value else cfg.defaultDaysBack.GetOr(3)
  }

  /** The scraping runs `schedule_jobs` makes itself: one with
      `startup_days_back` when `run_on_startup` is set and the jobs were built
      without an exception. */
  function StartupRuns(cfg: Config): seq<int> {
    if BuildJobs(cfg).error.None? && cfg.runOnStartup.GetOr(false)
    then [EffectiveDaysBack(Some(cfg.startupDaysBack.GetOr(3)), cfg)]
    else []
  }

  /** `every(n).<unit>`: the interval and unit `get_job_info` reports. */
  function IntervalOf(k: JobKind): int {
    match k
    case DailyAt(_) => 1
    case Hourly => 1
    case EveryHours(n) => n
    case EveryMinutes(n) => n
  }

  function UnitOf(k: JobKind): string {
    match k
    case DailyAt(_) => "days"
    case Hourly => "hours"
    case EveryHours(_) => "hours"
    case EveryMinutes(_) => "minutes"
  }

  /** One entry of `get_job_info`. */
  datatype JobInfo = JobInfo(task: string, nextRun: int, interval: string, unit: string)

  function InfoOf(job: Job, nextRunOf: Job -> int): JobInfo {
    JobInfo("run_scraping_task", nextRunOf(job), IntToString(IntervalOf(job.kind)), UnitOf(job.kind))
  }

  /** `schedule.next_run()`: the earliest next-run instant over the jobs. */
  function EarliestRun(jobs: seq<Job>, nextRunOf: Job -> int): (t: int)
    requires jobs != []
    ensures exists j :: j in jobs && t == nextRunOf(j)
    ensures forall j :: j in jobs ==> t <= nextRunOf(j)
  {
    if |jobs| == 1 then nextRunOf(jobs[0])
    else
      var t := EarliestRun(jobs[1..], nextRunOf);
      assert forall j :: j in jobs[1..] ==> j in jobs;
      assert forall j :: j in jobs ==> j == jobs[0] || j in jobs[1..];
      if nextRunOf(jobs[0]) <= t then nextRunOf(jobs[0]) else t
  }

  datatype NextRun = NextRun(at: int, timeUntil: int)

  /** The life cycle of the scheduler: the `running` flag and whether its
      background thread is alive. */
  datatype Lifecycle = Lifecycle(running: bool, threadAlive: bool)

  /** `start()`: a no-op while the thread is alive; otherwise the jobs are
      rebuilt and, unless that raises, a new thread enters its loop, whose
      first act is to set `running`. */
  function StartTransition(s: Lifecycle, scheduled: bool): Lifecycle {
    if s.threadAlive then s
    else if scheduled then Lifecycle(true, true)
    else s
  }

  /** `stop()`: clear `running` and wait up to five seconds for the thread.
      The loop notices only after its 60-second sleep, so `joined` says
      whether it happened to exit within the wait. */
  function StopTransition(s: Lifecycle, joined: bool): Lifecycle {
    Lifecycle(false, s.threadAlive && !joined)
  }

  /** The loop waking from its sleep: with `running` cleared, the thread ends. */
  function WakeTransition(s: Lifecycle): Lifecycle {
    if s.threadAlive && !s.running then Lifecycle(false, false) else s
  }

  /** Only a live loop sets `running`. */
  predicate Consistent(s: Lifecycle) {
    s.running ==> s.threadAlive
  }

  class ScrapingScheduler {
    const config: Config
    var running: bool
    var threadAlive: bool
    /** The `schedule` library's job list. */
    var jobs: seq<Job>
    /** The `days_back` of every `fetch_and_store` call, in order. */
    var runs: seq<int>

    function State(): Lifecycle
      reads this
    {
      Lifecycle(running, threadAlive)
    }

    /** `ScrapingScheduler(config)`: `config or SCHEDULER_CONFIG`, where `None`
        stands for a falsy argument (`None` or an empty dictionary). */
    constructor (config: Option<Config>)
      ensures this.config == config.GetOr(DefaultConfig)
      ensures State() == Lifecycle(false, false) && jobs == [] && runs == []
    {
      this.config := config.GetOr(DefaultConfig);
      running := false;
      threadAlive := false;
      jobs := [];
      runs := [];
    }

    /** `run_scraping_task(days_back)`: one `fetch_and_store` run; its
        exceptions are logged and swallowed. */
    method RunScrapingTask(daysBack: Option<int>)
      modifies this
      ensures runs == old(runs) + [EffectiveDaysBack(daysBack, config)]
      ensures jobs == old(jobs) && State() == old(State())
    {
      runs := runs + [EffectiveDaysBack(daysBack, config)];
    }

    /** `schedule_jobs()`: clear the job list, register the configured jobs,
        then run the startup scrape if configured. */
    method ScheduleJobs() returns (err: Option<ScheduleError>)
      modifies this
      ensures jobs == BuildJobs(config).jobs && err == BuildJobs(config).error
      ensures runs == old(runs) + StartupRuns(config)
      ensures State() == old(State())
    {
      jobs := [];
      if config.daily.None? {
        return Some(MissingDailySection);
      }
      var registered := DailyJobs(config.daily.value) + HourlyJobs(config.hourly);
      var specs := config.customJobs.GetOr([]);
      ghost var base := registered;
      ghost var done: seq<Job> := [];
      assert BuildJobs(config) == Built(base + CustomJobs(specs).jobs, CustomJobs(specs).error);
      var i := 0;
      while i < |specs|
        invariant 0 <= i <= |specs|
        invariant registered == base + done
        invariant CustomJobs(specs) == Built(done + CustomJobs(specs[i..]).jobs, CustomJobs(specs[i..]).error)
        invariant runs == old(runs) && State() == old(State())
      {
        CustomJobsStep(specs, i, done);
        var outcome := CustomJob(specs[i]);
        match outcome {
          case Raises(e) =>
            jobs := registered;
            return Some(e);
          case NoJob =>
          case NewJob(j) =>
            registered := registered + [j];
            done := done + [j];
        }
        i := i + 1;
      }
      assert specs[i..] == [];
      jobs := registered;
      if config.runOnStartup.GetOr(false) {
        RunScrapingTask(Some(config.startupDaysBack.GetOr(3)));
      }
      err := None;
    }

    /** `start()`. `started` is false when the thread was alive (a warning) or
        `schedule_jobs` raised (`err`). */
    method Start() returns (started: bool, err: Option<ScheduleError>)
      modifies this
      ensures State() == StartTransition(old(State()), !old(threadAlive) ==> err.None?)
      ensures started <==> !old(threadAlive) && err.None?
      ensures old(threadAlive) ==> err.None? && jobs == old(jobs) && runs == old(runs)
      ensures !old(threadAlive) ==>
                jobs == BuildJobs(config).jobs && err == BuildJobs(config).error
                && runs == old(runs) + StartupRuns(config)
    {
      if threadAlive {
        return false, None;
      }
      err := ScheduleJobs();
      if err.Some? {
        return false, err;
      }
      threadAlive := true;
      running := true;
      started := true;
    }

    /** `stop()`. */
    method Stop(joined: bool)
      modifies this
      ensures State() == StopTransition(old(State()), joined)
      ensures jobs == old(jobs) && runs == old(runs)
    {
      running := false;
      if threadAlive && joined {
        threadAlive := false;
      }
    }

    /** Waiting for the thread without a time limit once `running` is
        cleared: the loop wakes, sees the flag and ends. */
    method Join()
      requires !running
      modifies this
      ensures State() == WakeTransition(old(State())) == Lifecycle(false, false)
      ensures jobs == old(jobs) && runs == old(runs)
    {
      threadAlive := false;
    }

    /** One pass of `run_scheduler`'s loop after its sleep: with `running` set,
        `schedule.run_pending()` runs the due jobs (`due` holds their
        positions, as the library's clock decides); otherwise the loop ends. */
    method PollCycle(due: seq<nat>)
      requires forall k :: 0 <= k < |due| ==> due[k] < |jobs|
      modifies this
      ensures State() == (if old(running) then old(State()) else WakeTransition(old(State())))
      ensures jobs == old(jobs)
      ensures runs == old(runs) + (if old(threadAlive) && old(running) then DueRuns(jobs, due, config) else [])
    {
      if !threadAlive {
        return;
      }
      if !running {
        threadAlive := false;
        return;
      }
      var i := 0;
      while i < |due|
        invariant 0 <= i <= |due|
        invariant jobs == old(jobs) && State() == old(State())
        invariant forall k :: 0 <= k < i ==> due[..i][k] < |jobs|
        invariant runs == old(runs) + DueRuns(jobs, due[..i], config)
      {
        assert due[..i + 1][..i] == due[..i];
        RunScrapingTask(Some(jobs[due[i]].daysBack));
        i := i + 1;
      }
      assert due[..i] == due;
    }

    /** `get_next_run()`. */
    function GetNextRun(now: int, nextRunOf: Job -> int): (r: Option<NextRun>)
      reads this
      ensures r.None? <==> jobs == []
      ensures r.Some? ==> r.value.timeUntil == r.value.at - now
      ensures r.Some? ==> (exists j :: j in jobs && r.value.at == nextRunOf(j))
                          && forall j :: j in jobs ==> r.value.at <= nextRunOf(j)
    {
      if jobs == [] then None
      else var at := EarliestRun(jobs, nextRunOf); Some(NextRun(at, at - now))
    }

    /** `get_job_info()`: one entry per job, in job-list order. */
    method GetJobInfo(nextRunOf: Job -> int) returns (infos: seq<JobInfo>)
      ensures |infos| == |jobs|
      ensures forall i :: 0 <= i < |jobs| ==> infos[i] == InfoOf(jobs[i], nextRunOf)
    {
      infos := InfosOf(jobs, nextRunOf);
    }
  }

  /** The loop of `get_job_info()` over a job list: one entry per job, in
      order. */
  method InfosOf(jobs: seq<Job>, nextRunOf: Job -> int) returns (infos: seq<JobInfo>)
    ensures |infos| == |jobs|
    ensures forall i :: 0 <= i < |jobs| ==> infos[i] == InfoOf(jobs[i], nextRunOf)
  {
    infos := [];
    var i := 0;
    while i < |jobs|
      invariant 0 <= i <= |jobs| && |infos| == i
      invariant forall k :: 0 <= k < i ==> infos[k] == InfoOf(jobs[k], nextRunOf)
    {
      infos := infos + [InfoOf(jobs[i], nextRunOf)];
      i := i + 1;
    }
  }

  /** The scraping runs `run_pending` makes for the due jobs, in order. */
  function DueRuns(jobs: seq<Job>, due: seq<nat>, cfg: Config): seq<int>
    requires forall k :: 0 <= k < |due| ==> due[k] < |jobs|
  {
    if due == [] then []
    else DueRuns(jobs, due[..|due| - 1], cfg) + [EffectiveDaysBack(Some(jobs[due[|due| - 1]].daysBack), cfg)]
  }
}
