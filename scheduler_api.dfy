/** The scheduler endpoints of the HTTP API: the process-wide scheduler
    instance, the status, start, stop and restart handlers, and the log tail.
    A handler's reply is either its JSON body or an HTTP error; an exception
    the handler does not catch becomes a 500 reply. The instance a handler
    works on is the one `get_scheduler` returns. */
module SchedulerApi {
  import opened Options
  import opened SchedulerConfig
  import opened Scheduler

  datatype Reply<T> = Ok(body: T) | HttpError(status: int, detail: string)

  const InternalError := "Internal Server Error"
  const AlreadyRunning := "Scheduler is already running"
  const NotRunning := "Scheduler is not running"
  const Started := "Scheduler started successfully"
  const Stopped := "Scheduler stopped successfully"
  const Restarted := "Scheduler restarted successfully"

  /** The process-wide `scheduler_instance`. */
  class SchedulerRouter {
    var instance: ScrapingScheduler?

    constructor ()
      ensures instance == null
    {
      instance := null;
    }

    /** `get_scheduler()`: create the scheduler with the default configuration
        on first use, then always return that one. */
    method GetScheduler() returns (s: ScrapingScheduler)
      modifies this
      ensures instance == s
      ensures old(instance) != null ==> s == old(instance)
      ensures old(instance) == null ==>
                fresh(s) && s.config == DefaultConfig && s.State() == Lifecycle(false, false)
                && s.jobs == [] && s.runs == []
    {
      if instance == null {
        instance := new ScrapingScheduler(None);
      }
      s := instance;
    }
  }

  /** The `SchedulerStatus` body. */
  datatype SchedulerStatus = SchedulerStatus(running: bool, jobs: seq<JobInfo>, nextRun: Option<int>)

  /** `GET /scheduler/status`: rebuilds the job list with `schedule_jobs`
      (and so runs the startup scrape when configured), then reports the
      flag, the jobs and the earliest next run. */
  method GetSchedulerStatus(s: ScrapingScheduler, now: int, nextRunOf: Job -> int) returns (r: Reply<SchedulerStatus>)
    modifies s
    ensures s.jobs == BuildJobs(s.config).jobs && s.State() == old(s.State())
    ensures s.runs == old(s.runs) + StartupRuns(s.config)
    ensures BuildJobs(s.config).error.Some? <==> r == HttpError(500, InternalError)
    ensures r.Ok? ==>
              r.body.running == s.running
              && |r.body.jobs| == |s.jobs|
              && (forall i :: 0 <= i < |s.jobs| ==> r.body.jobs[i] == InfoOf(s.jobs[i], nextRunOf))
              && (r.body.nextRun.None? <==> s.jobs == [])
              && (r.body.nextRun.Some? ==> r.body.nextRun.value == EarliestRun(s.jobs, nextRunOf))
  {
    var err := s.ScheduleJobs();
    if err.Some? {
      return HttpError(500, InternalError);
    }
    var jobs := s.GetJobInfo(nextRunOf);
    var next := s.GetNextRun(now, nextRunOf);
    r := Ok(SchedulerStatus(s.running, jobs, if next.Some? then Some(next.value.at) else None));
  }

  /** `POST /scheduler/start`: refused while the `running` flag is set. */
  method StartScheduler(s: ScrapingScheduler) returns (r: Reply<string>)
    modifies s
    ensures old(s.running) ==> r == HttpError(400, AlreadyRunning)
                               && s.State() == old(s.State()) && s.jobs == old(s.jobs) && s.runs == old(s.runs)
    ensures !old(s.running) ==> s.State() == StartTransition(old(s.State()), BuildJobs(s.config).error.None?)
    ensures !old(s.running) ==>
              r == if !old(s.threadAlive) && BuildJobs(s.config).error.Some? then HttpError(500, InternalError) else Ok(Started)
    ensures !old(s.running) && !old(s.threadAlive) ==>
              s.jobs == BuildJobs(s.config).jobs && s.runs == old(s.runs) + StartupRuns(s.config)
    ensures old(s.threadAlive) ==> s.jobs == old(s.jobs) && s.runs == old(s.runs)
  {
    if s.running {
      return HttpError(400, AlreadyRunning);
    }
    var started, err := s.Start();
    if err.Some? {
      return HttpError(500, InternalError);
    }
    r := Ok(Started);
  }

  /** `POST /scheduler/stop`: refused unless the `running` flag is set;
      `joined` is whether the thread ended within the five-second wait. */
  method StopScheduler(s: ScrapingScheduler, joined: bool) returns (r: Reply<string>)
    modifies s
    ensures !old(s.running) ==> r == HttpError(400, NotRunning) && s.State() == old(s.State())
    ensures old(s.running) ==> r == Ok(Stopped) && s.State() == StopTransition(old(s.State()), joined)
    ensures s.jobs == old(s.jobs) && s.runs == old(s.runs)
  {
    if !s.running {
      return HttpError(400, NotRunning);
    }
    s.Stop(joined);
    r := Ok(Stopped);
  }

  /** The life cycle after `POST /scheduler/restart`: stop if running, then
      start. */
  function RestartTransition(s: Lifecycle, joined: bool, scheduled: bool): Lifecycle {
    StartTransition(if s.running then StopTransition(s, joined) else s, scheduled)
  }

  /** `POST /scheduler/restart`. */
  method RestartScheduler(s: ScrapingScheduler, joined: bool) returns (r: Reply<string>)
    modifies s
    ensures s.State() == RestartTransition(old(s.State()), joined, BuildJobs(s.config).error.None?)
    ensures r.HttpError? <==> RestartRebuilds(old(s.State()), joined) && BuildJobs(s.config).error.Some?
    ensures r.HttpError? ==> r == HttpError(500, InternalError)
    ensures r.Ok? ==> r.body == Restarted
    ensures RestartRebuilds(old(s.State()), joined) ==>
              s.jobs == BuildJobs(s.config).jobs && s.runs == old(s.runs) + StartupRuns(s.config)
    ensures !RestartRebuilds(old(s.State()), joined) ==> s.jobs == old(s.jobs) && s.runs == old(s.runs)
  {
    if s.running {
      s.Stop(joined);
    }
    var started, err := s.Start();
    if err.Some? {
      return HttpError(500, InternalError);
    }
    r := Ok(Restarted);
  }

  /** Whether the restart's `start` gets past its already-alive check. */
  predicate RestartRebuilds(s: Lifecycle, joined: bool) {
    !(if s.running then StopTransition(s, joined) else s).threadAlive
  }

  /** Restarting a running scheduler whose thread is asleep (so the
      five-second join times out) reports success, yet `start` finds the old
      thread alive and does nothing, and that thread ends when it wakes: the
      scheduler is left stopped. */
  lemma RestartCanLeaveStopped(scheduled: bool)
    ensures RestartTransition(Lifecycle(true, true), false, scheduled) == Lifecycle(false, true)
    ensures !RestartRebuilds(Lifecycle(true, true), false)
    ensures WakeTransition(RestartTransition(Lifecycle(true, true), false, scheduled)) == Lifecycle(false, false)
  {
  }

  /** Restart that waits for the old thread to end before starting anew. */
  method RestartSchedulerJoined(s: ScrapingScheduler, joined: bool) returns (r: Reply<string>)
    requires Consistent(s.State())
    modifies s
    ensures BuildJobs(s.config).error.None? ==> s.State() == Lifecycle(true, true) && r == Ok(Restarted)
    ensures BuildJobs(s.config).error.Some? ==> s.State() == Lifecycle(false, false) && r == HttpError(500, InternalError)
  {
    if s.running {
      s.Stop(joined);
    }
    if s.threadAlive {
      s.Join();
    }
    var started, err := s.Start();
    if err.Some? {
      return HttpError(500, InternalError);
    }
    r := Ok(Restarted);
  }

  /** The status a read-only handler reports: the jobs in place, or the ones
      the configuration would register when none are, without scraping. */
  method GetSchedulerStatusReadOnly(s: ScrapingScheduler, now: int, nextRunOf: Job -> int) returns (r: SchedulerStatus)
    ensures r.running == s.running
    ensures var jobs := if s.jobs == [] then BuildJobs(s.config).jobs else s.jobs;
            |r.jobs| == |jobs|
            && (forall i :: 0 <= i < |jobs| ==> r.jobs[i] == InfoOf(jobs[i], nextRunOf))
            && (r.nextRun.None? <==> jobs == [])
            && (r.nextRun.Some? ==> r.nextRun.value == EarliestRun(jobs, nextRunOf))
  {
    var jobs := if s.jobs == [] then BuildJobs(s.config).jobs else s.jobs;
    var infos := InfosOf(jobs, nextRunOf);
    r := SchedulerStatus(s.running, infos, if jobs == [] then None else Some(EarliestRun(jobs, nextRunOf)));
  }

  /** Python's `xs[start:]`: a negative start counts from the end; both are
      clamped to the list. */
  function SliceFrom<T>(xs: seq<T>, start: int): (r: seq<T>)
    ensures start >= 0 ==> r == xs[if start <= |xs| then start else |xs|..]
    ensures start < 0 ==> r == xs[if |xs| + start >= 0 then |xs| + start else 0..]
  {
    var k := if start < 0 then (if |xs| + start >= 0 then |xs| + start else 0)
             else (if start <= |xs| then start else |xs|);
    xs[k..]
  }

  /** `log_lines[-lines:] if len(log_lines) > lines else log_lines`. */
  function LogTail<T>(xs: seq<T>, lines: int): seq<T> {
    if |xs| > lines then SliceFrom(xs, -lines) else xs
  }

  /** The lines a log request asks for: at most `lines`, never fewer than
      zero. */
  function Wanted(total: nat, lines: int): nat {
    if lines <= 0 then 0 else if lines < total then lines else total
  }

  /** For a positive count the tail is the last `min(lines, total)` lines. */
  lemma LogTailPositive<T>(xs: seq<T>, lines: int)
    requires lines > 0
    ensures LogTail(xs, lines) == xs[|xs| - Wanted(|xs|, lines)..]
  {
  }

  /** A count of zero returns the whole log, and a negative count `-k` drops
      the first `k` lines instead of returning none. */
  lemma LogTailNonPositive<T>(xs: seq<T>, k: nat)
    requires xs != []
    ensures LogTail(xs, 0) == xs && |LogTail(xs, 0)| != Wanted(|xs|, 0)
    ensures LogTail(xs, -(k as int)) == xs[if k <= |xs| then k else |xs|..]
  {
  }

  /** The tail with the count clamped at zero. */
  function LogTailClamped<T>(xs: seq<T>, lines: int): (r: seq<T>)
    ensures |r| == Wanted(|xs|, lines)
    ensures r == xs[|xs| - |r|..]
    ensures lines > 0 ==> r == LogTail(xs, lines)
  {
    xs[|xs| - Wanted(|xs|, lines)..]
  }

  datatype LogsBody = NoLogFile | Logs(logs: seq<string>, totalLines: nat, returnedLines: nat)

  /** `GET /scheduler/logs`: `logFile` is the file's lines, `None` when it
      does not exist. */
  function GetSchedulerLogs(logFile: Option<seq<string>>, lines: int): (r: LogsBody)
    ensures logFile.None? <==> r == NoLogFile
    ensures r.Logs? ==> r.totalLines == |logFile.value| && r.returnedLines == |r.logs|
                        && r.logs == LogTail(logFile.value, lines)
    ensures r.Logs? && lines > 0 ==> r.logs == logFile.value[|logFile.value| - Wanted(|logFile.value|, lines)..]
  {
    match logFile
    case None => NoLogFile
    case Some(logLines) =>
      var recent := LogTail(logLines, lines);
      Logs(recent, |logLines|, |recent|)
  }
}
