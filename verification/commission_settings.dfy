/** The commission settings the row-based engines read: per business unit
    a default rate for each commission type and an enabled switch, and per
    business unit and employee an optional rate override saved from the
    company-setup screen. */
module CommissionSettings {
  import opened Wrappers

  /** The three commission types, named as the engines name them. */
  datatype Kind = LeadGen | SoldBy | WorkDone

  function KindName(k: Kind): string {
    match k
    case LeadGen => "lead_gen"
    case SoldBy => "sold_by"
    case WorkDone => "work_done"
  }

  /** The settings key of a type's rate (`type_map` in the engine). */
  function RateKey(k: Kind): (key: string)
    ensures key == KindName(k) + "_rate"
  {
    match k
    case LeadGen => "lead_gen_rate"
    case SoldBy => "sold_by_rate"
    case WorkDone => "work_done_rate"
  }

  /** One unit's entry in the commission settings; a key the entry lacks
      reads as rate 0 and enabled. */
  datatype UnitConfig = UnitConfig(leadGenRate: real, soldByRate: real, workDoneRate: real, enabled: bool)

  function DefaultRate(c: UnitConfig, k: Kind): real {
    match k
    case LeadGen => c.leadGenRate
    case SoldBy => c.soldByRate
    case WorkDone => c.workDoneRate
  }

  /** An employee's override in one unit: rates and on/off flags by key,
      and the time it was saved. */
  datatype OverrideEntry = OverrideEntry(rates: map<string, real>, flags: map<string, bool>, lastUpdated: string)

  /** unit name -> employee name -> override */
  type Overrides = map<string, map<string, OverrideEntry>>

  function Entry(o: Overrides, unit: string, employee: string): (r: Option<OverrideEntry>)
    ensures r.Some? <==> unit in o && employee in o[unit]
  {
    if unit in o && employee in o[unit] then Some(o[unit][employee]) else None
  }

  /** `entry.get(key, False)` */
  function FlagOn(e: OverrideEntry, key: string): bool {
    key in e.flags && e.flags[key]
  }

  /** `entry.get(key, default)` */
  function RateOr(e: OverrideEntry, key: string, default: real): real {
    if key in e.rates then e.rates[key] else default
  }

  /** The flag key the engine looks up: `use_<type>_override`. */
  function EngineFlagKey(k: Kind): (key: string)
    ensures key == "use_" + KindName(k) + "_override"
  {
    "use_" + KindName(k) + "_override"
  }

  /** The flag key the company-setup screen writes for each type. */
  function ScreenFlagKey(k: Kind): string {
    match k
    case LeadGen => "use_lead_override"
    case SoldBy => "use_sales_override"
    case WorkDone => "use_work_override"
  }

  /** The engine's rate lookup as written: the override applies only when
      the employee has an entry in the unit whose `use_<type>_override`
      flag is on; the override's rate then falls back to the default when
      the entry has no rate for the type. */
  function OverrideRateAsWritten(o: Overrides, employee: string, unit: string, k: Kind, default: real): (r: real)
    ensures Entry(o, unit, employee).None? ==> r == default
    ensures Entry(o, unit, employee).Some? && !FlagOn(Entry(o, unit, employee).value, EngineFlagKey(k)) ==> r == default
    ensures Entry(o, unit, employee).Some? && FlagOn(Entry(o, unit, employee).value, EngineFlagKey(k))
      ==> r == RateOr(Entry(o, unit, employee).value, RateKey(k), default)
  {
    match Entry(o, unit, employee)
    case None => default
    case Some(e) => if FlagOn(e, EngineFlagKey(k)) then RateOr(e, RateKey(k), default) else default
  }

  /** The lookup with the flag keys the screen actually writes; the rest of
      the model uses this one. */
  function OverrideRate(o: Overrides, employee: string, unit: string, k: Kind, default: real): (r: real)
    ensures Entry(o, unit, employee).None? ==> r == default
    ensures Entry(o, unit, employee).Some? && !FlagOn(Entry(o, unit, employee).value, ScreenFlagKey(k)) ==> r == default
    ensures Entry(o, unit, employee).Some? && FlagOn(Entry(o, unit, employee).value, ScreenFlagKey(k))
      ==> r == RateOr(Entry(o, unit, employee).value, RateKey(k), default)
  {
    match Entry(o, unit, employee)
    case None => default
    case Some(e) => if FlagOn(e, ScreenFlagKey(k)) then RateOr(e, RateKey(k), default) else default
  }

  /** Saving the override form: the unit gets an (possibly empty) override
      table; the employee's entry is replaced when at least one of the three
      flags is on and removed otherwise.  Nothing else changes. */
  function SaveOverride(o: Overrides, unit: string, employee: string,
                        leadOn: bool, salesOn: bool, workOn: bool,
                        leadRate: real, salesRate: real, workRate: real, now: string): (r: Overrides)
    ensures unit in r
    ensures (leadOn || salesOn || workOn) <==> employee in r[unit]
    ensures employee in r[unit] ==> r[unit][employee] == SavedEntry(leadOn, salesOn, workOn, leadRate, salesRate, workRate, now)
    ensures forall u :: u in o ==> u in r
    ensures forall u :: u in r && u != unit ==> u in o && r[u] == o[u]
    ensures forall e :: e in r[unit] && e != employee ==> unit in o && e in o[unit] && r[unit][e] == o[unit][e]
    ensures forall e :: unit in o && e in o[unit] && e != employee ==> e in r[unit]
  {
    var table := if unit in o then o[unit] else map[];
    if leadOn || salesOn || workOn then
      o[unit := table[employee := SavedEntry(leadOn, salesOn, workOn, leadRate, salesRate, workRate, now)]]
    else
      o[unit := table - {employee}]
  }

  /** The entry the form writes. */
  function SavedEntry(leadOn: bool, salesOn: bool, workOn: bool,
                      leadRate: real, salesRate: real, workRate: real, now: string): (e: OverrideEntry)
    ensures FlagOn(e, ScreenFlagKey(LeadGen)) == leadOn
    ensures FlagOn(e, ScreenFlagKey(SoldBy)) == salesOn
    ensures FlagOn(e, ScreenFlagKey(WorkDone)) == workOn
    ensures RateOr(e, RateKey(LeadGen), 0.0) == leadRate
    ensures RateOr(e, RateKey(SoldBy), 0.0) == salesRate
    ensures RateOr(e, RateKey(WorkDone), 0.0) == workRate
  {
    OverrideEntry(
      map["lead_gen_rate" := leadRate, "sold_by_rate" := salesRate, "work_done_rate" := workRate],
      map["use_lead_override" := leadOn, "use_sales_override" := salesOn, "use_work_override" := workOn],
      now)
  }

  /** The engine's flag key is never one the screen writes. */
  lemma FlagKeysDiffer(k: Kind)
    ensures EngineFlagKey(k) !in SavedEntry(true, true, true, 0.0, 0.0, 0.0, "").flags
  {
    var key := EngineFlagKey(k);
    match k
    case LeadGen => assert key == "use_lead_gen_override";
    case SoldBy => assert key == "use_sold_by_override";
    case WorkDone => assert key == "use_work_done_override";
  }

  /** As written, no override saved from the screen ever changes a rate:
      the lookup returns the unit default whatever was saved. */
  lemma SavedOverridesIgnoredAsWritten(o: Overrides, unit: string, employee: string,
                                       leadOn: bool, salesOn: bool, workOn: bool,
                                       leadRate: real, salesRate: real, workRate: real, now: string,
                                       k: Kind, default: real)
    ensures OverrideRateAsWritten(SaveOverride(o, unit, employee, leadOn, salesOn, workOn, leadRate, salesRate, workRate, now),
                                  employee, unit, k, default) == default
  {
    var r := SaveOverride(o, unit, employee, leadOn, salesOn, workOn, leadRate, salesRate, workRate, now);
    FlagKeysDiffer(k);
    if employee in r[unit] {
      var e: OverrideEntry := r[unit][employee];
      assert e.flags.Keys == SavedEntry(true, true, true, 0.0, 0.0, 0.0, "").flags.Keys;
    }
  }

  /** With the screen's keys, a saved override whose flag is on sets the
      rate to the saved one, and one whose flag is off keeps the default. */
  lemma SavedOverridesApplied(o: Overrides, unit: string, employee: string,
                              leadOn: bool, salesOn: bool, workOn: bool,
                              leadRate: real, salesRate: real, workRate: real, now: string,
                              default: real)
    ensures var r := SaveOverride(o, unit, employee, leadOn, salesOn, workOn, leadRate, salesRate, workRate, now);
      OverrideRate(r, employee, unit, LeadGen, default) == (if leadOn then leadRate else default)
      && OverrideRate(r, employee, unit, SoldBy, default) == (if salesOn then salesRate else default)
      && OverrideRate(r, employee, unit, WorkDone, default) == (if workOn then workRate else default)
  {
  }

  /** A concrete case: a 10% lead-generation override saved for Tech1 in
      "Electrical" with a 5% default is applied by the corrected lookup and
      ignored by the lookup as written. */
  lemma OverrideExample()
    ensures var o := SaveOverride(map[], "Electrical", "Tech1", true, false, false, 10.0, 0.0, 0.0, "");
      OverrideRateAsWritten(o, "Tech1", "Electrical", LeadGen, 5.0) == 5.0
      && OverrideRate(o, "Tech1", "Electrical", LeadGen, 5.0) == 10.0
  {
    SavedOverridesIgnoredAsWritten(map[], "Electrical", "Tech1", true, false, false, 10.0, 0.0, 0.0, "", LeadGen, 5.0);
  }
}
