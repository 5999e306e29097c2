/** The screens' tuning settings: three sections of defaults that updates
    may change only where a setting exists, the environment's multipliers,
    and the batch size chosen for a data set of a given size.  The
    environment name is a parameter here (`None` when unset). */
module ScreenConfig {
  import opened Wrappers
  import Decimals
  import AppConfig

  type Section = AppConfig.Section

  const PerformanceDefaults: Section :=
    map["cache_ttl_seconds" := AppConfig.Int(3600), "commission_cache_ttl" := AppConfig.Int(1800),
        "dashboard_cache_ttl" := AppConfig.Int(300), "batch_size_large_datasets" := AppConfig.Int(1000),
        "max_rows_before_batching" := AppConfig.Int(5000), "progress_update_interval" := AppConfig.Int(100),
        "enable_memory_optimization" := AppConfig.Flag(true), "auto_downcast_numbers" := AppConfig.Flag(true),
        "category_threshold" := AppConfig.Real(0.5), "lazy_load_reports" := AppConfig.Flag(true),
        "paginate_large_tables" := AppConfig.Flag(true), "max_rows_per_page" := AppConfig.Int(50),
        "max_file_size_mb" := AppConfig.Int(100), "chunk_size_excel" := AppConfig.Int(1000)]
  const BusinessDefaults: Section :=
    map["default_pay_schedule" := AppConfig.Text("Bi-weekly"), "default_overtime_multiplier" := AppConfig.Real(1.5),
        "default_doubletime_multiplier" := AppConfig.Real(2.0), "default_lead_gen_rate" := AppConfig.Real(2.0),
        "default_sales_rate" := AppConfig.Real(3.0), "default_work_done_rate" := AppConfig.Real(1.5),
        "default_hourly_rate" := AppConfig.Real(25.0), "default_commission_plan" := AppConfig.Text("Efficiency Pay"),
        "min_hourly_rate" := AppConfig.Real(15.0), "max_hourly_rate" := AppConfig.Real(200.0),
        "max_commission_rate" := AppConfig.Real(50.0)]
  const UiDefaults: Section :=
    map["primary_color" := AppConfig.Text("#2C5F75"), "secondary_color" := AppConfig.Text("#922B3E"),
        "sidebar_default_expanded" := AppConfig.Flag(false), "wide_mode_default" := AppConfig.Flag(true),
        "default_chart_height" := AppConfig.Int(400), "default_table_height" := AppConfig.Int(300),
        "sticky_navigation" := AppConfig.Flag(true), "show_breadcrumbs" := AppConfig.Flag(true)]

  datatype Settings = Settings(performance: Section, business: Section, ui: Section)

  function DefaultSettings(): Settings {
    Settings(PerformanceDefaults, BusinessDefaults, UiDefaults)
  }

  /** `update_performance_config`, `update_business_config` and
      `update_ui_config`: settings a section lacks are ignored. */
  function UpdatePerformance(s: Settings, updates: map<string, AppConfig.Value>): (r: Settings)
    ensures r.performance.Keys == s.performance.Keys && r.business == s.business && r.ui == s.ui
    ensures forall k :: k in updates && k in s.performance ==> r.performance[k] == updates[k]
    ensures forall k :: k in s.performance && k !in updates ==> r.performance[k] == s.performance[k]
  {
    s.(performance := AppConfig.UpdateSection(s.performance, updates))
  }

  function UpdateBusiness(s: Settings, updates: map<string, AppConfig.Value>): (r: Settings)
    ensures r.business.Keys == s.business.Keys && r.performance == s.performance && r.ui == s.ui
    ensures forall k :: k in updates && k in s.business ==> r.business[k] == updates[k]
    ensures forall k :: k in s.business && k !in updates ==> r.business[k] == s.business[k]
  {
    s.(business := AppConfig.UpdateSection(s.business, updates))
  }

  function UpdateUi(s: Settings, updates: map<string, AppConfig.Value>): (r: Settings)
    ensures r.ui.Keys == s.ui.Keys && r.performance == s.performance && r.business == s.business
    ensures forall k :: k in updates && k in s.ui ==> r.ui[k] == updates[k]
    ensures forall k :: k in s.ui && k !in updates ==> r.ui[k] == s.ui[k]
  {
    s.(ui := AppConfig.UpdateSection(s.ui, updates))
  }

  /** Unknown settings leave every section as it was. */
  lemma UnknownSettingsIgnored(s: Settings, updates: map<string, AppConfig.Value>)
    requires forall k :: k in updates ==> k !in s.performance && k !in s.business && k !in s.ui
    ensures UpdatePerformance(s, updates) == s && UpdateBusiness(s, updates) == s && UpdateUi(s, updates) == s
  {
    assert AppConfig.UpdateSection(s.performance, updates) == s.performance;
    assert AppConfig.UpdateSection(s.business, updates) == s.business;
    assert AppConfig.UpdateSection(s.ui, updates) == s.ui;
  }

  /** `get_*_setting`: the setting, or the given default when the section
      lacks it. */
  function GetSetting(section: Section, key: string, default: AppConfig.Value): (v: AppConfig.Value)
    ensures key in section ==> v == section[key]
    ensures key !in section ==> v == default
  {
    if key in section then section[key] else default
  }

  // ---- environment ---------------------------------------------------------------

  datatype Environment = Environment(debug: bool, cacheTtlMultiplier: real, batchSizeMultiplier: real, enableProfiling: bool)

  /** `get_environment_config`: production doubles batches and cache
      times, development (the default when unset) halves them, anything
      else keeps them; only development turns debugging and profiling on. */
  function EnvironmentConfig(env: Option<string>): (e: Environment)
    ensures e.batchSizeMultiplier == e.cacheTtlMultiplier
    ensures e.debug == e.enableProfiling
    ensures e.debug <==> env.None? || env.value == "development"
    ensures env == Some("production") ==> e.batchSizeMultiplier == 2.0
    ensures e.debug ==> e.batchSizeMultiplier == 0.5
    ensures !e.debug && env != Some("production") ==> e.batchSizeMultiplier == 1.0
  {
    var name := env.GetOr("development");
    if name == "production" then Environment(false, 2.0, 2.0, false)
    else if name == "development" then Environment(true, 0.5, 0.5, true)
    else Environment(false, 1.0, 1.0, false)
  }

  /** `get_adaptive_batch_size`: the base batch scaled by the environment
      and truncated; a small data set caps it at its own size and a very
      large one raises it to at least 2000. */
  function AdaptiveBatchSize(env: Option<string>, base: int, dataSize: int): (n: int)
    ensures var adjusted := Decimals.TruncateToInt(base as real * EnvironmentConfig(env).batchSizeMultiplier);
      (dataSize < 1000 ==> n == Decimals.Min(adjusted as real, dataSize as real) as int)
      && (dataSize > 50000 ==> n >= 2000 && n >= adjusted && (n == 2000 || n == adjusted))
      && (1000 <= dataSize <= 50000 ==> n == adjusted)
    ensures dataSize < 1000 ==> n <= dataSize
  {
    var adjusted := Decimals.TruncateToInt(base as real * EnvironmentConfig(env).batchSizeMultiplier);
    if dataSize < 1000 then (if adjusted <= dataSize then adjusted else dataSize)
    else if dataSize > 50000 then (if adjusted >= 2000 then adjusted else 2000)
    else adjusted
  }

  /** With the default base of 1000 a mid-sized data set gets 2000 rows a
      batch in production, 500 in development and 1000 elsewhere. */
  lemma DefaultBatchSizes(env: Option<string>, dataSize: int)
    requires 1000 <= dataSize <= 50000
    ensures env == Some("production") ==> AdaptiveBatchSize(env, 1000, dataSize) == 2000
    ensures (env.None? || env == Some("development")) ==> AdaptiveBatchSize(env, 1000, dataSize) == 500
    ensures env.Some? && env.value != "production" && env.value != "development" ==>
      AdaptiveBatchSize(env, 1000, dataSize) == 1000
  {
  }

  datatype Plan = Plan(batchSize: int, caching: bool, memoryOptimization: bool, progressUpdates: bool, lazyLoading: Option<bool>)

  /** `optimize_for_data_size`: small data sets get small batches and no
      caching; from 10000 rows on, lazy loading is asked for. */
  function OptimizeForDataSize(env: Option<string>, base: int, dataSize: int): (p: Plan)
    ensures dataSize < 1000 <==> !p.caching
    ensures dataSize < 1000 ==> p.batchSize == (if dataSize <= 100 then dataSize else 100)
                                && !p.memoryOptimization && !p.progressUpdates
    ensures dataSize >= 1000 ==> p.batchSize == AdaptiveBatchSize(env, base, dataSize)
                                 && p.memoryOptimization && p.progressUpdates
    ensures p.lazyLoading.Some? <==> dataSize >= 10000
    ensures p.lazyLoading.Some? ==> p.lazyLoading.value
  {
    if dataSize < 1000 then Plan(if dataSize <= 100 then dataSize else 100, false, false, false, None)
    else if dataSize < 10000 then Plan(AdaptiveBatchSize(env, base, dataSize), true, true, true, None)
    else Plan(AdaptiveBatchSize(env, base, dataSize), true, true, true, Some(true))
  }

  /** A plan never batches more rows than a small data set has, and a
      positive base gives every larger data set a positive batch. */
  lemma PlanBatchBounds(env: Option<string>, base: int, dataSize: int)
    ensures dataSize < 1000 ==> OptimizeForDataSize(env, base, dataSize).batchSize <= dataSize
    ensures dataSize >= 1000 && base >= 2 ==> OptimizeForDataSize(env, base, dataSize).batchSize > 0
  {
  }
}
