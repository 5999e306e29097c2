/** The application configuration: five sections of named settings with
    their defaults, the update that only touches settings a section has,
    the business section's default commission rates, and the validation of
    a handful of bounds.  A setting holds whatever value was last put in
    it, as Python's `setattr` allows, so the validation's comparisons can
    fail on a setting that is not a number. */
module AppConfig {
  import opened Wrappers

  datatype Value = Int(i: int) | Real(r: real) | Text(s: string) | Flag(b: bool) | Rates(m: map<string, real>) | NoValue

  type Section = map<string, Value>

  datatype Config = Config(database: Section, ui: Section, security: Section, business: Section, exports: Section)

  const DefaultRates: map<string, real> := map["lead_generated_by" := 2.0, "sold_by" := 3.0, "work_done" := 5.0]

  const DatabaseDefaults: Section :=
    map["path" := Text("commission_calculator.db"), "backup_interval" := Int(24), "max_backups" := Int(7)]
  const UiDefaults: Section :=
    map["theme" := Text("light"), "page_title" := Text("Commission Calculator Pro"), "sidebar_state" := Text("expanded"),
        "default_chart_type" := Text("bar"), "records_per_page" := Int(50)]
  const SecurityDefaults: Section :=
    map["session_timeout" := Int(480), "password_min_length" := Int(8), "max_login_attempts" := Int(5),
        "lockout_duration" := Int(30)]
  const BusinessDefaults: Section :=
    map["max_overtime_hours" := Real(20.0), "max_double_time_hours" := Real(8.0), "max_commission_rate" := Real(50.0),
        "default_commission_rates" := Rates(DefaultRates)]
  const ExportDefaults: Section :=
    map["default_format" := Text("xlsx"), "include_metadata" := Flag(true), "max_export_records" := Int(10000),
        "export_directory" := Text("exports")]

  function DefaultConfig(): Config {
    Config(DatabaseDefaults, UiDefaults, SecurityDefaults, BusinessDefaults, ExportDefaults)
  }

  /** Building the business section from given settings: an unknown
      setting is refused; a missing setting takes its default, and missing
      or empty (`None`) commission rates take the default rates. */
  function MakeBusiness(given: map<string, Value>): (r: Result<Section>)
    ensures r.Ok? <==> given.Keys <= BusinessDefaults.Keys
    ensures r.Ok? ==> r.value.Keys == BusinessDefaults.Keys
    ensures r.Ok? ==> forall k :: k in BusinessDefaults && k != "default_commission_rates" ==>
      r.value[k] == (if k in given then given[k] else BusinessDefaults[k])
    ensures r.Ok? && ("default_commission_rates" !in given || given["default_commission_rates"] == NoValue) ==>
      r.value["default_commission_rates"] == Rates(DefaultRates)
  {
    if !(given.Keys <= BusinessDefaults.Keys) then Err("unexpected keyword argument")
    else
      var merged := map k | k in BusinessDefaults :: if k in given then given[k] else BusinessDefaults[k];
      if merged["default_commission_rates"] == NoValue then Ok(merged["default_commission_rates" := Rates(DefaultRates)])
      else Ok(merged)
  }

  /** One section with the updates applied to the settings it has; the
      others are ignored. */
  function UpdateSection(s: Section, updates: map<string, Value>): (r: Section)
    ensures r.Keys == s.Keys
    ensures forall k :: k in s ==> r[k] == (if k in updates then updates[k] else s[k])
  {
    map k | k in s :: if k in updates then updates[k] else s[k]
  }

  /** `update_config`: an unknown section name is reported and caught, so
      nothing changes. */
  function UpdateConfig(c: Config, section: string, updates: map<string, Value>): (r: Config)
    ensures section == "database" ==> r == c.(database := UpdateSection(c.database, updates))
    ensures section == "ui" ==> r == c.(ui := UpdateSection(c.ui, updates))
    ensures section == "security" ==> r == c.(security := UpdateSection(c.security, updates))
    ensures section == "business" ==> r == c.(business := UpdateSection(c.business, updates))
    ensures section == "export" ==> r == c.(exports := UpdateSection(c.exports, updates))
    ensures section !in {"database", "ui", "security", "business", "export"} ==> r == c
  {
    if section == "database" then c.(database := UpdateSection(c.database, updates))
    else if section == "ui" then c.(ui := UpdateSection(c.ui, updates))
    else if section == "security" then c.(security := UpdateSection(c.security, updates))
    else if section == "business" then c.(business := UpdateSection(c.business, updates))
    else if section == "export" then c.(exports := UpdateSection(c.exports, updates))
    else c
  }

  /** Updates naming no setting of any section change nothing. */
  lemma UpdateIgnoresUnknown(c: Config, section: string, updates: map<string, Value>)
    requires forall k :: k in updates ==> k !in DatabaseDefaults && k !in UiDefaults && k !in SecurityDefaults
                                          && k !in BusinessDefaults && k !in ExportDefaults
    requires c.database.Keys == DatabaseDefaults.Keys && c.ui.Keys == UiDefaults.Keys
    requires c.security.Keys == SecurityDefaults.Keys && c.business.Keys == BusinessDefaults.Keys
    requires c.exports.Keys == ExportDefaults.Keys
    ensures UpdateConfig(c, section, updates) == c
  {
    var r := UpdateConfig(c, section, updates);
    assert UpdateSection(c.database, updates) == c.database;
    assert UpdateSection(c.ui, updates) == c.ui;
    assert UpdateSection(c.security, updates) == c.security;
    assert UpdateSection(c.business, updates) == c.business;
    assert UpdateSection(c.exports, updates) == c.exports;
  }

  lemma UpdateSectionIdempotent(s: Section, updates: map<string, Value>)
    ensures UpdateSection(UpdateSection(s, updates), updates) == UpdateSection(s, updates)
  {
  }

  /** Updating twice with the same settings is updating once. */
  lemma UpdateIdempotent(c: Config, section: string, updates: map<string, Value>)
    ensures UpdateConfig(UpdateConfig(c, section, updates), section, updates) == UpdateConfig(c, section, updates)
  {
    UpdateSectionIdempotent(c.database, updates);
    UpdateSectionIdempotent(c.ui, updates);
    UpdateSectionIdempotent(c.security, updates);
    UpdateSectionIdempotent(c.business, updates);
    UpdateSectionIdempotent(c.exports, updates);
  }

  // ---- validation --------------------------------------------------------------

  /** A setting read as a number, as Python compares it: integers, reals
      and booleans compare as numbers; anything else cannot be compared. */
  function Numeric(v: Value): Option<real> {
    match v
    case Int(i) => Some(i as real)
    case Real(x) => Some(x)
    case Flag(b) => Some(if b then 1.0 else 0.0)
    case _ => None
  }

  /** Python truthiness of a setting. */
  predicate Truthy(v: Value) {
    match v
    case Int(i) => i != 0
    case Real(x) => x != 0.0
    case Text(t) => t != ""
    case Flag(b) => b
    case Rates(m) => m != map[]
    case NoValue => false
  }

  function Setting(s: Section, key: string): Value {
    if key in s then s[key] else NoValue
  }

  const NotComparable := "'<' not supported between these operands"

  /** One lower bound: the message when the setting is below it. */
  function AtLeast(v: Value, bound: real, message: string): (r: Result<seq<string>>)
    ensures r.Ok? <==> Numeric(v).Some?
    ensures r.Ok? ==> (r.value == [] <==> Numeric(v).value >= bound) && (r.value != [] ==> r.value == [message])
  {
    match Numeric(v)
    case None => Err(NotComparable)
    case Some(x) => Ok(if x < bound then [message] else [])
  }

  /** One upper bound: the message when the setting is above it. */
  function AtMost(v: Value, bound: real, message: string): (r: Result<seq<string>>)
    ensures r.Ok? <==> Numeric(v).Some?
    ensures r.Ok? ==> (r.value == [] <==> Numeric(v).value <= bound) && (r.value != [] ==> r.value == [message])
  {
    match Numeric(v)
    case None => Err(NotComparable)
    case Some(x) => Ok(if x > bound then [message] else [])
  }

  /** The settings the validation compares are all numbers. */
  predicate Comparable(c: Config) {
    Numeric(Setting(c.database, "backup_interval")).Some? && Numeric(Setting(c.database, "max_backups")).Some?
    && Numeric(Setting(c.security, "session_timeout")).Some? && Numeric(Setting(c.security, "password_min_length")).Some?
    && Numeric(Setting(c.business, "max_commission_rate")).Some? && Numeric(Setting(c.business, "max_overtime_hours")).Some?
    && Numeric(Setting(c.exports, "max_export_records")).Some?
  }

  /** Every bound the validation checks holds. */
  predicate WithinBounds(c: Config)
    requires Comparable(c)
  {
    Truthy(Setting(c.database, "path"))
    && Numeric(Setting(c.database, "backup_interval")).value >= 1.0
    && Numeric(Setting(c.database, "max_backups")).value >= 1.0
    && Numeric(Setting(c.security, "session_timeout")).value >= 30.0
    && Numeric(Setting(c.security, "password_min_length")).value >= 4.0
    && Numeric(Setting(c.business, "max_commission_rate")).value <= 100.0
    && Numeric(Setting(c.business, "max_overtime_hours")).value >= 0.0
    && Numeric(Setting(c.exports, "max_export_records")).value >= 1.0
  }

  /** The validation's messages. */
  const PathMessage := "Database path cannot be empty"
  const BackupMessage := "Backup interval must be at least 1 hour"
  const BackupsMessage := "Maximum backups must be at least 1"
  const TimeoutMessage := "Session timeout must be at least 30 minutes"
  const PasswordMessage := "Minimum password length must be at least 4"
  const RateMessage := "Maximum commission rate cannot exceed 100%"
  const OvertimeMessage := "Maximum overtime hours cannot be negative"
  const RecordsMessage := "Maximum export records must be at least 1"

  /** `validate_config`: the errors of the bounds that fail, in order.  A
      compared setting that is not a number makes the call fail. */
  function ValidateConfig(c: Config): (r: Result<seq<string>>)
    ensures r.Ok? <==> Comparable(c)
    ensures r.Ok? ==> (r.value == [] <==> WithinBounds(c))
    ensures r.Ok? ==> |r.value| <= 8
  {
    var path := if Truthy(Setting(c.database, "path")) then [] else [PathMessage];
    var backup :- AtLeast(Setting(c.database, "backup_interval"), 1.0, BackupMessage);
    var backups :- AtLeast(Setting(c.database, "max_backups"), 1.0, BackupsMessage);
    var timeout :- AtLeast(Setting(c.security, "session_timeout"), 30.0, TimeoutMessage);
    var password :- AtLeast(Setting(c.security, "password_min_length"), 4.0, PasswordMessage);
    var rate :- AtMost(Setting(c.business, "max_commission_rate"), 100.0, RateMessage);
    var overtime :- AtLeast(Setting(c.business, "max_overtime_hours"), 0.0, OvertimeMessage);
    var records :- AtLeast(Setting(c.exports, "max_export_records"), 1.0, RecordsMessage);
    Ok(path + backup + backups + timeout + password + rate + overtime + records)
  }

  /** The defaults pass the validation. */
  lemma DefaultsAreValid()
    ensures ValidateConfig(DefaultConfig()) == Ok([])
  {
    var c := DefaultConfig();
    assert Setting(c.database, "path") == Text("commission_calculator.db");
    assert Setting(c.database, "backup_interval") == Int(24);
    assert Setting(c.database, "max_backups") == Int(7);
    assert Setting(c.security, "session_timeout") == Int(480);
    assert Setting(c.security, "password_min_length") == Int(8);
    assert Setting(c.business, "max_commission_rate") == Real(50.0);
    assert Setting(c.business, "max_overtime_hours") == Real(20.0);
    assert Setting(c.exports, "max_export_records") == Int(10000);
  }

  /** Business settings loaded without commission rates get the defaults. */
  lemma LoadedBusinessGetsDefaultRates(given: map<string, Value>)
    requires given.Keys <= BusinessDefaults.Keys && "default_commission_rates" !in given
    ensures MakeBusiness(given).Ok? && MakeBusiness(given).value["default_commission_rates"] == Rates(DefaultRates)
  {
  }
}
