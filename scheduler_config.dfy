/** The scheduler's configuration record and the five configurations the
    backend ships. A field is `None` when the key is absent, so that the
    `dict.get(key, default)` lookups of the scheduler can be modelled; the
    `logging` and `error_handling` sections are never read and are not part of
    the record. */
module SchedulerConfig {
  import opened Options

  datatype DailySection = DailySection(enabled: Option<bool>, time: Option<string>, daysBack: Option<int>)

  datatype HourlySection = HourlySection(enabled: Option<bool>, daysBack: Option<int>)

  datatype CustomJobSpec = CustomJobSpec(
    enabled: Option<bool>,
    interval: Option<string>,
    daysBack: Option<int>,
    description: Option<string>)

  datatype Config = Config(
    defaultDaysBack: Option<int>,
    runOnStartup: Option<bool>,
    startupDaysBack: Option<int>,
    daily: Option<DailySection>,
    hourly: Option<HourlySection>,
    customJobs: Option<seq<CustomJobSpec>>)

  /** `SCHEDULER_CONFIG`: daily at 09:00 looking back three days, hourly off,
      two example custom jobs that are both disabled, and one run at startup. */
  const DefaultConfig: Config := Config(
    defaultDaysBack := Some(3),
    runOnStartup := Some(true),
    startupDaysBack := Some(3),
    daily := Some(DailySection(Some(true), Some("09:00"), Some(3))),
    hourly := Some(HourlySection(Some(false), Some(1))),
    customJobs := Some([
      CustomJobSpec(Some(false), Some("6h"), Some(2), Some("Every 6 hours")),
      CustomJobSpec(Some(false), Some("30m"), Some(1), Some("Every 30 minutes"))]))

  /** `DAILY_ONLY_CONFIG`: the default with daily at 08:00, hourly off (without
      its `days_back`) and no custom jobs. */
  const DailyOnlyConfig: Config := DefaultConfig.(
    hourly := Some(HourlySection(Some(false), None)),
    customJobs := Some([]),
    daily := Some(DailySection(Some(true), Some("08:00"), Some(3))))

  /** `FREQUENT_MONITORING_CONFIG`: daily, hourly and every 30 minutes. */
  const FrequentMonitoringConfig: Config := DefaultConfig.(
    daily := Some(DailySection(Some(true), Some("09:00"), Some(3))),
    hourly := Some(HourlySection(Some(true), Some(1))),
    customJobs := Some([CustomJobSpec(Some(true), Some("30m"), Some(1), Some("Every 30 minutes"))]))

  /** `BUSINESS_HOURS_CONFIG`: daily and every 4 hours; hourly inherited. */
  const BusinessHoursConfig: Config := DefaultConfig.(
    daily := Some(DailySection(Some(true), Some("09:00"), Some(3))),
    customJobs := Some([CustomJobSpec(Some(true), Some("4h"), Some(2), Some("Every 4 hours during business hours"))]))

  /** `TEST_CONFIG`: daily and hourly off, every 2 minutes, run at startup. */
  const TestConfig: Config := DefaultConfig.(
    runOnStartup := Some(true),
    startupDaysBack := Some(3),
    daily := Some(DailySection(Some(false), Some("09:00"), Some(3))),
    hourly := Some(HourlySection(Some(false), Some(1))),
    customJobs := Some([CustomJobSpec(Some(true), Some("2m"), Some(3), Some("Every 2 minutes for testing"))]))
}
