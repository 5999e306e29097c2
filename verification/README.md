# Commission calculator: a verified model of the business rules

This project models the business rules of a commission calculator for a
field-service company. The calculator turns three kinds of uploaded sheets
into commissions and final pay:

- revenue rows: jobs, each with a business unit, a lead generator, a salesperson and the assigned technicians;
- employee records;
- timesheets.

The repository holds several versions of the commission engine, and they
disagree with each other. Each is modelled on its own:

- `PerJobEngine`: the per-job engine. Commissions are rounded half-up to
  cents, and the work-done commission is shared equally by the eligible
  technicians.
- `ApiEngine`: the web service's row-based engine. Every listed technician
  earns the full work-done rate, and per-employee rate overrides apply.
- `ReportsEngine`: the report screen's float twin of the row-based engine.
- `PoolCalculator` and `CalculatorImports`: the pool-distribution
  calculator. Each unit's pool is shared among the active employees in
  proportion to their labor cost. Its records are modelled in
  `EmployeeModel` and `UnitModel`.

Around the engines sit:

- pay-period scheduling: two generators and two notions of the current period (`ApiPayPeriods`, `UiPayPeriods`, `PayPeriods`, `PayPeriodSchema`);
- the upload, row and time-value checks (`Validators`, `UploadChecks`, `TimesheetProcessor`, `TimeValues`, `SafeAccess`);
- the technician-list parser (`TechLists`);
- the data-management and company-setup screens (`HourEditing`, `ImportScreen`, `Grouping`, `SetupEmployees`, `SetupUnits`, `CommissionSettings`, `EmployeeHours`, `UiUtils`);
- the web API's schemas and services (`ApiSchemas`, `EmployeeService`, `UnitService`);
- the exports (`Export`);
- the approval workflow and the notification queue (`ApprovalWorkflow`, `Notifications`);
- the role check, the configuration and the error hierarchy (`Auth`, `AppConfig`, `ScreenConfig`, `AppErrors`);
- the analytics arithmetic (`Analytics`).

Shared building blocks:

- `Decimals`: exact decimal rounding, half-up and half-even.
- `Dates` and `IsoDates`: calendar dates as Python's `datetime.date`.
- `Text` and `Numbers`: Python's string operations and number parsing.
- `Dicts`: insertion-ordered dicts.
- `Tables`: the pandas operations the engines use.
- `Wrappers`: `Option` and `Result`.

Every operation is a pure function over immutable data. State that the
program keeps in the session (the employee table, the settings, the
queues) is passed in and handed back. A raised exception becomes an `Err`
carrying its message.

Where the documentation of the system and its code differ, the model
follows the code:

- Work-done shares are rounded one by one, so the shares of a job need not
  add up to revenue × rate. Three technicians sharing $1.00 are paid
  $0.99 in all (`PerJobEngine.RoundedSharesExample`).
- The service's "current period" is only a period that contains today.
  The screens fall back to the latest past period and then to the first
  future one (`PayPeriods.CurrentNotionsDiffer`).
- The service's semi-monthly periods are the 1st–15th and the 16th–end.
  The company-setup screen uses the 1st–14th and the 15th–end
  (`UiPayPeriods.SemiMonthlyBoundariesDiffer`).

## Model

| member | source | states |
|---|---|---|
| Decimals.RoundHalfUp | services/commission_service.py:109 | the integer within one half of the value, ties away from zero, and the value itself when it is whole |
| Decimals.RoundHalfEven | models/employee.py:31 | the integer within one half of the value, ties to the even neighbour, and the value itself when it is whole |
| Decimals.RoundHalfUpUnique | services/commission_service.py:109 | any integer meeting the half-up rounding rule is the rounded value |
| Decimals.RoundHalfEvenUnique | models/employee.py:31 | any integer meeting the half-even rounding rule is the rounded value |
| Decimals.CentsHalfUp | services/commission_service.py:206 | quantizing to cents half-up: a whole number of cents within half a cent of the value, unchanged for an amount already in cents, never negative for a non-negative amount |
| Decimals.TenthsHalfUp | services/commission_service.py:356-357 | quantizing to one decimal place half-up: a whole number of tenths within 0.05 of the value |
| Decimals.CentsHalfEven | models/business_unit.py:21 | quantizing to cents under the default context: a whole number of cents within half a cent, ties to an even cent |
| Decimals.CentsHalfUpCharacterized | services/commission_service.py:206 | an amount is the nearest cent with ties up iff it is the quantized value |
| Decimals.TenthsHalfUpCharacterized | services/commission_service.py:356-357 | an amount is the nearest tenth with ties up iff it is the quantized value |
| Decimals.CentsHalfEvenCharacterized | models/business_unit.py:21 | an amount is the nearest cent with ties to even iff it is the quantized value |
| Decimals.TruncateToInt | ui/config.py:179 | `int(x)` truncates toward zero for either sign |
| Decimals.PercentAtMost | api/services/commission_service.py:270 | at most 100 percent of a non-negative amount is non-negative and at most the amount |
| Text.Lower | ui/company_setup.py:765 | the same length, each character lower-cased |
| Text.Upper | ui/company_setup.py:915-917 | the same length, each character upper-cased |
| Text.Strip | error_scan_fixes.py:227 | a slice of the input with no blank at either end, and only blanks removed |
| Text.StripEmptyIffBlank | error_scan_fixes.py:233-234 | stripping leaves nothing iff the text is blank |
| Text.StripIdempotent | error_scan_fixes.py:233 | stripping twice is stripping once |
| Text.JoinSplitOn | error_scan_fixes.py:232 | joining the parts of a split with the separator gives back the text |
| Text.SplitJoin | ui/data_management.py:339-381 | splitting a join of separator-free parts gives the parts back |
| Text.SplitPartsFree | ui/data_management.py:339 | no part of a split holds the separator |
| Text.Words | ui/company_setup.py:915 | `split()` yields non-empty blank-free words, and none iff the text is blank |
| Text.NatToString | ui/company_setup.py:568 | at least one character, all digits |
| Text.DigitsOfNat | ui/company_setup.py:568 | the printed digits of n read back as n |
| Text.ZeroFill | ui/company_setup.py:568 | `zfill` pads with zeros on the left to the width and keeps the text as its suffix |
| Text.LeadingZeros | ui/company_setup.py:568 | leading zeros do not change the value of a digit string |
| Dates.DaysInMonth | ui/company_setup.py:120 | 28 to 31 days, 29 exactly for February of a leap year |
| Dates.NextDay | ui/company_setup.py:320 | the next day is a valid date after the given one, with an ordinal one higher (Dates.NextDayOrdinal) |
| Dates.AddDaysOrdinal | ui/company_setup.py:320 | adding n days adds n to the day number |
| Dates.OrdinalOrder | api/services/commission_service.py:190 | date order and day-number order agree, both directions |
| Dates.AddOneMonth | api/services/pay_period_service.py:160 | `+ relativedelta(months=1)` keeps the day or clamps it to the month's last day, 28 to 31 days later |
| Dicts.Get | api/services/business_unit_service.py:118 | found iff the key is present, with its value |
| Dicts.Put | api/services/business_unit_service.py:94 | the key gets the value; a new key goes to the end of the order, an existing one keeps its place |
| Dicts.Remove | api/services/business_unit_service.py:160 | the key is gone from the entries and the order, every other entry is unchanged |
| Dicts.AddTo | api/services/commission_service.py:119-121 | the key's value grows by the amount, other keys are unchanged, and the total grows by the amount |
| Dicts.RemoveAll | ui/company_setup.py:1040-1041 | deleting a list of keys removes exactly those keys and leaves the other values alone |
| Seqs.Dedup | error_scan_fixes.py:234-235 | the same members, no repeats, no longer than the input |
| Seqs.DedupOfDistinct | error_scan_fixes.py:234-235 | a list without repeats is its own de-duplication |
| Seqs.Insert | pages/data_management.py:208 | inserting into an ascending list keeps it ascending and repeat-free with exactly one new member |
| Numbers.ParseUnsigned | utils/timesheet_processor.py:75 | an unsigned decimal reads as a non-negative number |
| Numbers.BlankIsNotNumber | api/services/commission_service.py:261-263 | a blank cell is not a number |
| Numbers.ParseNat | utils/timesheet_processor.py:75 | printed digits read back as the same whole number |
| Numbers.ParseNegativeNat | utils/timesheet_processor.py:75 | a minus sign and printed digits read back as the negative number |
| Numbers.ParseCents | utils/timesheet_processor.py:319 | an amount of cents printed with two decimals reads back as the same amount |
| IsoDates.FormatIsoDate | api/services/pay_period_service.py:98-100 | ten characters with dashes at positions 4 and 7 |
| IsoDates.ParseIsoDate | api/services/pay_period_service.py:40-42 | a parsed date is a calendar date with a four-digit year |
| IsoDates.ParseFormatIsoDate | api/services/pay_period_service.py:40-100 | reading back the printed form of a date gives the date |
| IsoDates.FormatParseIsoDate | api/services/pay_period_service.py:40-100 | every text that parses prints back as the same text |
| Tables.Get | api/services/commission_service.py:259 | a column the row lacks reads as missing |
| Tables.FirstColumn | api/services/commission_service.py:428-431 | the first column satisfying the test, or none iff none does |
| Tables.ToNumeric | api/services/commission_service.py:261 | a number reads as itself; a missing cell or a date reads as NaN |
| Tables.NumOrZero | api/services/commission_service.py:261-263 | NaN becomes 0, any number is kept |
| Tables.ColumnTotalNonNegative | api/services/commission_service.py:412 | a column of non-negative readings totals non-negative |
| Tables.WhereEquals | api/services/commission_service.py:207 | exactly the rows, in order, whose cell is the given text |
| Tables.CellText | utils/timesheet_processor.py:35 | `str` of a cell: text is itself, a missing value is "nan", a boolean "True" or "False", and a whole number ends in ".0" as Python prints a float |
| Tables.WholeNumberText | utils/timesheet_processor.py:71-75 | `float(str(x).strip())` gives back a whole non-negative number x |
| Tables.TextOf | api/services/commission_service.py:260 | some text iff the cell holds text |
| Tables.ToDate | api/services/commission_service.py:189 | a date cell reads as its date; a missing, numeric or boolean cell does not read |
| Tables.RowsInRange | ui/reports.py:1269-1273 | exactly the rows whose date reads and lies in the closed range |
| TechLists.CleanParts | ui/data_management.py:340 | non-empty stripped parts, no more than there were |
| TechLists.TechList | api/services/commission_service.py:303 | every name in the list is non-empty, stripped and free of ',' and '&' |
| TechLists.ListingRows | api/services/commission_service.py:299-305 | exactly the rows, in order, whose technician list names the employee |
| TechLists.SplitJoinSplit | ui/data_management.py:339-383 | splitting the recombined technician columns gives back the same list, so saving without edits credits the same technicians |
| TechLists.SafeTechnicianSplit | error_scan_fixes.py:211-249 | no repeats, every name a blank-free word, nothing for an empty input |
| TechLists.FinalSplit | error_scan_fixes.py:238-243 | the final blank split keeps the first copy of each word |
| PerJobEngine.SetCommissionRates | services/commission_service.py:16-23 | the rate table is replaced; units and staff are untouched |
| PerJobEngine.AddBusinessUnit | services/commission_service.py:25-44 | the job is stored under its name, replacing an earlier one, and nothing else changes |
| PerJobEngine.AddEmployee | services/commission_service.py:46-72 | the stored entry carries the given hourly rate, hours and flags with total hours = regular + OT + DT; every other employee is kept as it was |
| PerJobEngine.LeadGenCommission | services/commission_service.py:74-112 | 0 for an unpriced unit, for a helper or excluded employee and for anyone but the lead generator; otherwise revenue × rate / 100 rounded half-up to the cent |
| PerJobEngine.SalesCommission | services/commission_service.py:114-152 | the same rule for the seller of the job |
| PerJobEngine.EligibleTechs | services/commission_service.py:186-194 | an assignee shares the work-done pool iff it is not a registered helper or excluded employee |
| PerJobEngine.WorkDoneCommission | services/commission_service.py:154-209 | 0 for an unpriced unit, a barred employee, a non-assignee or when no assignee is eligible; otherwise revenue × rate / 100 divided by the number of eligible technicians, rounded half-up |
| PerJobEngine.BarredEarnsNothing | services/commission_service.py:89-97 | a helper or payroll-excluded employee earns 0 of all three commission types on every unit |
| PerJobEngine.WorkDoneEqualShares | services/commission_service.py:201-207 | any two eligible technicians of a unit are paid the same work-done amount |
| PerJobEngine.WorkDoneDivisor | services/commission_service.py:186-194 | unregistered assignees count in the divisor; helpers and excluded staff do not |
| PerJobEngine.WorkDoneSharesCoverPool | services/commission_service.py:201-205 | n rounded shares differ from the pool by at most half a cent per share |
| PerJobEngine.PayingUnits | services/commission_service.py:263-270 | a unit gets a detail row iff the employee's total on it is positive |
| PerJobEngine.Accumulate | services/commission_service.py:256-274 | one detail row per paying unit, in unit order, each the unit's line; the lead, sales and work-done totals are the sums of the units' amounts of each kind |
| PerJobEngine.TotalCommission | services/commission_service.py:211-283 | a helper or excluded employee gets all-zero totals, no details and the matching flag; anyone else gets lead, sales and work-done equal to the sums over the units of the per-unit amounts of each kind, total = lead + sales + work-done, and one detail row per paying unit |
| PerJobEngine.DetailsAddUpToTotal | services/commission_service.py:263-280 | with non-negative revenues and rates the detail rows add up to the total: the dropped units pay nothing |
| PerJobEngine.StaffLabor | services/commission_service.py:302-315 | each part and the total are the exact costs (OT at 1.5x, DT at 2x) rounded half-up to the cent |
| PerJobEngine.LaborCost | services/commission_service.py:285-315 | an unknown employee costs 0 in every part; a known one costs StaffLabor |
| PerJobEngine.LaborPartsNearTotal | services/commission_service.py:305-315 | the separately rounded parts differ from the rounded total by at most two cents |
| PerJobEngine.LaborPartsExample | services/commission_service.py:305-315 | at $0.01 an hour with half an hour regular and half overtime the parts disagree with the total |
| PerJobEngine.Lines | services/commission_service.py:337-351 | one line per employee in registration order, with earnings = commission + labor |
| PerJobEngine.CommissionSummary | services/commission_service.py:317-366 | total revenue is the sum of every unit's revenue; one line per employee in registration order carrying that employee's total commission and labor cost; counts, totals as the sums of the lines, gross profit = revenue − labor − commissions, margin rounded half-up to 0.1 when revenue is positive and 0 otherwise |
| PerJobEngine.SummaryBalances | services/commission_service.py:354 | revenue = gross profit + the employees' total earnings |
| PerJobEngine.UnpricedUnitErrors | services/commission_service.py:385-388 | no message iff every unit has rates |
| PerJobEngine.ReferencedNames | services/commission_service.py:390-397 | the referenced names are all known iff every job's lead generator, seller and technicians are |
| PerJobEngine.MissingEmployeeErrors | services/commission_service.py:399-401 | no message iff every listed name is a known employee |
| PerJobEngine.ValidateSetup | services/commission_service.py:368-403 | valid iff the message list is empty iff rates, units and staff exist, every unit is priced and every referenced person is registered |
| PerJobEngine.SetupCompleteIff | services/commission_service.py:376-401 | the setup conditions restated per unit and per referenced person, both directions |
| PerJobEngine.HelperDoesNotDiluteExample | services/commission_service.py:186-207 | a helper on the job takes no share: the one eligible technician gets all of 4000 × 45% = 1800.00 |
| PerJobEngine.UnregisteredAllEligible | services/commission_service.py:188-190 | when no assignee is registered, all of them share |
| PerJobEngine.EqualSplitExample | services/commission_service.py:201-207 | two eligible technicians get 900.00 each of an 1800.00 pool |
| PerJobEngine.RoundedSharesExample | services/commission_service.py:203-205 | $1.00 split three ways pays 0.33 each, 0.99 in all |
| Pay.Reconcile | api/services/commission_service.py:357-363 | Efficiency Pay pays the larger of hourly pay and commission, with the excess over hourly pay as efficiency pay; any other plan pays both, with no efficiency pay; efficiency pay is never negative |
| Pay.EfficiencyNeverExceedsSum | api/services/commission_service.py:357-363 | with non-negative amounts Efficiency Pay never pays more than Hourly + Commission, and pays the same when either amount is zero |
| ApiEngine.RevenueColumn | api/services/commission_service.py:424-431 | no column iff no column name looks like revenue; otherwise a column that does |
| ApiEngine.DateFiltered | api/services/commission_service.py:185-193 | without a 'Date' column, or when a date cannot be read, every row is used; otherwise exactly the rows dated inside the period |
| ApiEngine.DateFilterInclusive | api/services/commission_service.py:190 | rows dated on the first or the last day of the period are kept |
| ApiEngine.JobOf | api/services/commission_service.py:280 | a detail's job number is the row's 'Job Number' cell; missing when the sheet has the column but the row lacks it; "Unknown" when the sheet has no such column |
| ApiEngine.RateFor | api/services/commission_service.py:433-460 | the employee's override rate for the unit and type when the override is switched on (the unit's default rate when no rate is stored), the unit's default rate otherwise |
| ApiEngine.DetailsFor | api/services/commission_service.py:258-284 | one detail per row, in order, for the employee, type, unit and rate, carrying the row's revenue (0 when it does not read as a number), rate percent of it, and the row's job number |
| ApiEngine.DetailsForTotal | api/services/commission_service.py:258-284 | the details of some rows pay `rate` percent of the rows' revenue total |
| ApiEngine.TypeDetails | api/services/commission_service.py:242-284 | lead generation or sales: one detail per row naming the employee in the role column, paying in total `rate` percent of those rows' revenue |
| ApiEngine.WorkDetails | api/services/commission_service.py:286-329 | work done: one detail per row whose technician list names the employee, paying in total `rate` percent of those rows' revenue |
| ApiEngine.FullCreditEachTech | api/services/commission_service.py:299-327 | two technicians on one job are each paid the job's full revenue times the rate; the amount is not divided |
| ApiEngine.UnitRows | api/services/commission_service.py:205-209 | a unit's rows are those naming it, or all rows when the sheet has no 'Business Unit' column |
| ApiEngine.KindDetails | api/services/commission_service.py:211-238 | a type yields nothing without its column or a positive unit rate; otherwise its details pay the employee's rate percent of the revenue of the rows crediting them |
| ApiEngine.UnitDetails | api/services/commission_service.py:201-238 | a disabled unit or one without rows yields nothing; a commission type appears only when the sheet has its column, and every detail belongs to the unit and the employee |
| ApiEngine.UnitDetailsTotal | api/services/commission_service.py:201-238 | a unit's details pay, per type, the rate percent of the revenue of the unit's rows crediting the employee, summed over the three types |
| ApiEngine.RevenueCommissions | api/services/commission_service.py:172-240 | nothing when no column looks like revenue; every detail is the employee's and belongs to an enabled unit |
| ApiEngine.UnitsDetailsTotal | api/services/commission_service.py:195-240 | the listed units' details pay what each unit pays, added up |
| ApiEngine.RevenueCommissionsTotal | api/services/commission_service.py:172-240 | an employee's revenue details pay, over the rows of the period, what the settings' units pay; nothing without a revenue column |
| ApiEngine.KindTotalsAddUp | api/services/commission_service.py:106-115 | the lead-generation, sales and work-done totals add up to the total of all details |
| ApiEngine.HourlyRateOf | api/services/commission_service.py:342 | 0 without an 'Hourly Rate' column, the number in a numeric cell, the value of a numeric text, an error otherwise |
| ApiEngine.EfficiencyOf | api/services/commission_service.py:331-378 | succeeds iff the hourly rate can be read; hourly pay from the hours with overtime at 1.5x and double time at 2x, reconciled with the commission by plan |
| ApiEngine.NameOf | api/services/commission_service.py:74 | succeeds iff the 'Name' cell is text, and returns it |
| ApiEngine.EmployeeCalculation | api/services/commission_service.py:73-136 | succeeds iff the name can be read and, when there is timesheet data, the hourly rate; the result carries the row's index and name and its totals agree with its details |
| ApiEngine.CalculationDetails | api/services/commission_service.py:79-104 | a calculation's details are the employee's revenue details for the requested period (none without revenue data), so its total is what the units pay over the period's rows |
| ApiEngine.Select | api/services/commission_service.py:55-56 | an empty id list keeps every row; otherwise it succeeds iff every position is in range, counting negative ones from the end, and picks those rows in the given order |
| ApiEngine.Calculations | api/services/commission_service.py:73-136 | one calculation per selected employee, in order, each the employee's own calculation |
| ApiEngine.CalculationsConsistent | api/services/commission_service.py:73-136 | every calculation of a successful run agrees with the inputs it was made from |
| ApiEngine.CalculationsDetails | api/services/commission_service.py:73-104 | every calculation of a run carries its employee's revenue details for the period |
| ApiEngine.UnitSummary | api/services/commission_service.py:117-121 | the unit summary holds exactly the units of the details and its amounts add up to the total of the details |
| ApiEngine.TypeTotalsAddUp | api/services/commission_service.py:106-115 | the summary's per-type totals add up to the total commission |
| ApiEngine.AllDetailsTotal | api/services/commission_service.py:86-134 | the details of all calculations add up to the total commission |
| ApiEngine.NoNegativeEfficiency | api/services/commission_service.py:157-158 | no employee is counted as having negative efficiency pay |
| ApiEngine.Summarize | api/services/commission_service.py:138-150 | the employee count, the total commission and the total efficiency pay are the sums over the calculations; per-type totals and unit totals each add up to the total commission |
| ApiEngine.EfficiencyResults | api/services/commission_service.py:152-167 | present iff there is timesheet data and at least one calculation; no negative count, and the average times the count is the total efficiency pay |
| ApiEngine.CalculateCommissions | api/services/commission_service.py:31-170 | fails for an empty employee sheet; on success one calculation per selected employee (every row when no ids are given), a summary whose per-type and per-unit totals add up to the total commission, and efficiency results iff there is timesheet data, with no negative count |
| ApiEngine.CommissionDetails | api/services/commission_service.py:31-136 | the answer reports, for every employee, the revenue details of the requested period drawn from the revenue sheet |
| CommissionSettings.RateKey | api/services/commission_service.py:444-450 | a type's rate key is its name followed by "_rate", the key the screen writes too |
| CommissionSettings.Entry | api/services/commission_service.py:454-455 | an override entry exists iff the unit has a table holding the employee |
| CommissionSettings.EngineFlagKey | api/services/commission_service.py:451 | the engine's flag key is "use_" + the type name + "_override" |
| CommissionSettings.OverrideRateAsWritten | api/services/commission_service.py:433-460 | the unit default unless the employee's entry has the engine's flag on, in which case the entry's rate, or the default when it has none |
| CommissionSettings.OverrideRate | ui/company_setup.py:1200-1208 | the same lookup keyed by the flags the screen writes |
| CommissionSettings.SaveOverride | ui/company_setup.py:1194-1215 | the unit always gets a table; the employee has an entry afterwards iff some flag is on, and then it is the saved entry; every other unit and employee entry is unchanged |
| CommissionSettings.SavedEntry | ui/company_setup.py:1202-1210 | the saved entry carries each flag and each rate as entered |
| CommissionSettings.FlagKeysDiffer | ui/company_setup.py:1206-1208 | the engine's flag key is never one the screen writes |
| CommissionSettings.SavedOverridesIgnoredAsWritten | api/services/commission_service.py:451-458 | as written, a saved override never changes the rate the engine uses |
| CommissionSettings.SavedOverridesApplied | ui/company_setup.py:1200-1208 | with the screen's keys a saved override whose flag is on sets the rate, and one whose flag is off keeps the default |
| CommissionSettings.OverrideExample | ui/company_setup.py:1200-1208 | a 10% lead-generation override over a 5% default is applied by the corrected lookup and ignored by the as-written one |
| EmployeeHours.RegularColumn | api/services/commission_service.py:411-414 | regular hours come from 'Reg Hours' when present, else from 'Regular Hours' |
| EmployeeHours.RowsOf | api/services/commission_service.py:398-403 | exactly the employee's rows, none without an 'Employee Name' column |
| EmployeeHours.HoursWithOverrides | api/services/commission_service.py:380-422 | an override wins; without one an employee without rows has zero hours, and otherwise each kind of hours is the total of its column over the employee's rows |
| EmployeeHours.OverrideTakesPrecedence | api/services/commission_service.py:388-396 | with an override the timesheet makes no difference |
| EmployeeHours.RegHoursPreferred | api/services/commission_service.py:411-414 | with both spellings present only 'Reg Hours' counts |
| EmployeeHours.SheetHours | api/services/commission_service.py:398-422 | without an override the hours are the three column totals over the employee's rows, zero when the sheet lacks a column |
| EmployeeHours.HoursAdditive | api/services/commission_service.py:405-422 | hours over the rows of two sheets are the sums of their hours |
| EmployeeHours.HoursNonNegative | api/services/commission_service.py:405-422 | non-negative cells give non-negative hours |
| PayPeriods.Trichotomy | ui/company_setup.py:329-341 | every period contains the day, lies before it or lies after it |
| PayPeriods.PeriodContaining | api/services/pay_period_service.py:74-85 | the current period contains the day, and there is none iff no period does |
| PayPeriods.CurrentWithFallback | ui/company_setup.py:324-343 | the first period containing the day, else the last past one, else the first future one |
| PayPeriods.FallbackEmptyOnlyWithoutPeriods | ui/company_setup.py:324-343 | the screens find no current period iff there are no periods |
| PayPeriods.CurrentNotionsAgree | api/services/pay_period_service.py:74-85 | when a period contains the day, the service and the screens pick the same period |
| PayPeriods.CurrentNotionsDiffer | ui/company_setup.py:333-336 | on a day between two periods the service finds nothing while the screens pick the period that just ended |
| PayPeriodSchema.ParseSchedule | api/models/pay_period.py:13-18 | only the four schedule values are accepted, each as itself |
| PayPeriodSchema.ScheduleRoundTrip | api/models/pay_period.py:13-18 | every schedule reads back from its value |
| PayPeriodSchema.PeriodErrors | api/models/pay_period.py:21-41 | no error iff the period is well formed; a number below 1, an end not after the start, and a pay date before an accepted end are each reported iff they occur |
| PayPeriodSchema.MakePeriod | api/models/pay_period.py:21-41 | accepted iff well formed, as given; otherwise one of its errors |
| PayPeriodSchema.MakeConfig | api/models/pay_period.py:69-81 | accepted iff the pay delay is within 0..30 |
| PayPeriodSchema.MakeGeneration | api/models/pay_period.py:89-97 | accepted iff the configuration is valid and 1 to 52 periods are asked for |
| PayPeriodSchema.DefaultsAccepted | api/models/pay_period.py:74-96 | the defaults (no pay delay, 26 periods) are accepted |
| ApiPayPeriods.Step | api/services/pay_period_service.py:142-161 | weekly and bi-weekly periods last 7 and 14 days; semi-monthly ones end on the 15th from the 1st and at month end otherwise; monthly ones last one calendar month; the next period starts the day after |
| ApiPayPeriods.GenerateFrom | api/services/pay_period_service.py:141-179 | the run fails iff a period would end on its own start day; otherwise the periods are numbered on, contiguous and well formed |
| ApiPayPeriods.Generate | api/services/pay_period_service.py:131-181 | periods numbered from 1, each starting the day after the previous one ends and paid the delay after its end; fails iff a one-day period would be created |
| ApiPayPeriods.GeneratedCovers | api/services/pay_period_service.py:141-179 | every day from the first start to the last end lies in some generated period |
| ApiPayPeriods.GeneratedNoOverlap | api/services/pay_period_service.py:141-179 | no day lies in two generated periods |
| ApiPayPeriods.LaterStartsAfter | api/services/pay_period_service.py:141-179 | a later period starts after an earlier one ends |
| ApiPayPeriods.Classify | api/services/pay_period_service.py:200-207 | a 7-day step is weekly, a 14-day step bi-weekly, a first period longer than 25 days otherwise monthly, else semi-monthly |
| ApiPayPeriods.InferConfig | api/services/pay_period_service.py:183-216 | nothing for fewer than two periods; an error iff the first pay delay is outside 0..30; otherwise the classified schedule, the first start and the delay |
| ApiPayPeriods.InferGenerated | api/services/pay_period_service.py:131-216 | reading back a generated weekly, bi-weekly, monthly or 1st-started semi-monthly run gives its configuration |
| ApiPayPeriods.InferenceMisreadsLeapFebruary | api/services/pay_period_service.py:200-207 | a semi-monthly run from 16 February 2024 is read back as a different configuration |
| ApiPayPeriods.PeriodsOfYear | api/services/pay_period_service.py:25-51 | the stored periods of the year (all without a year), each with its stored position, in order |
| UiPayPeriods.MonthEnd | ui/company_setup.py:285-287 | stepping back from the 1st plus 32 days by the probe's day number gives the month's last day |
| UiPayPeriods.UiStep | ui/company_setup.py:270-320 | per schedule the end, pay date and next start as written or corrected; the as-written next start is the day after the end except for semi-monthly starts between the 2nd and the 14th |
| UiPayPeriods.GenerateAsWritten | ui/company_setup.py:265-322 | the requested number of periods, numbered from 1, each carrying the run's size |
| UiPayPeriods.Generate | ui/company_setup.py:265-322 | corrected: the periods start at the given day, each the day after the previous one ends |
| UiPayPeriods.SemiMonthlyGapAsWritten | ui/company_setup.py:289-318 | a semi-monthly run started on 5 January leaves 15-31 January uncovered |
| UiPayPeriods.SemiMonthlyHalves | ui/company_setup.py:280-287 | corrected semi-monthly periods run 1st-14th and 15th-month end once they reach a boundary |
| UiPayPeriods.HalfStarts | ui/company_setup.py:280-287 | every corrected semi-monthly period from a boundary starts on the 1st or the 15th |
| UiPayPeriods.MonthlyPayAsWritten | ui/company_setup.py:298-302 | as written the January period is paid on 6 February |
| UiPayPeriods.MonthlyPayOnFifth | ui/company_setup.py:302 | corrected monthly periods are paid on the 5th of the following month |
| UiPayPeriods.SemiMonthlyBoundariesDiffer | ui/company_setup.py:280-282 | from the 1st the screen's first half ends on the 14th and the service's on the 15th |
| UiUtils.FileSizeOk | ui/utils.py:28-36 | no upload passes; an upload passes iff its size is at most the limit in mebibytes |
| UiUtils.ContentCheckAsWritten | ui/utils.py:38-68 | no upload passes; empty content fails with "File is empty"; any other failure is the bad-workbook message, for a workbook name without the ZIP signature |
| UiUtils.ContentCheck | ui/utils.py:38-68 | corrected: a `.xls` name passes with the ZIP or the compound-document signature; otherwise as written |
| UiUtils.ContentChecksAgree | ui/utils.py:50-53 | the two checks agree on every name but `.xls`, and non-workbook non-empty uploads pass both |
| UiUtils.LegacyWorkbookRefusedAsWritten | ui/utils.py:50-53 | a genuine legacy workbook is refused as written and accepted once corrected |
| UiUtils.FirstPresent | ui/utils.py:109-118 | the first preferred revenue column name the sheet has, none iff it has none of them |
| UiUtils.FirstMentioningRevenue | ui/utils.py:120-123 | the first column whose lower-cased name contains "revenue", none iff there is none |
| UiUtils.RevenueColumn | ui/utils.py:100-125 | none iff the sheet is empty or has no candidate; a preferred name when one is present, else a column mentioning revenue |
| UiUtils.PreferredAreRevenueLike | ui/utils.py:105-113 | every preferred name is also accepted by the service's detection |
| UiUtils.ScreensColumnImpliesServiceColumn | ui/utils.py:100-125 | whenever the screens find a revenue column the service finds one in the same sheet |
| UiUtils.RevenueColumnsDiffer | ui/utils.py:105-113 | with "Total" listed before "Jobs Total Revenue" the service takes "Total" and the screens "Jobs Total Revenue" |
| UiUtils.Readings | ui/utils.py:139 | one reading per row, unreadable values as 0 |
| UiUtils.ReadingsTotal | ui/utils.py:139 | the readings add up to the column total the engines use |
| UiUtils.SafeRevenue | ui/utils.py:127-142 | nothing for an empty sheet or a missing column; otherwise the column's readings |
| UiUtils.SafeRevenueTotal | ui/utils.py:127-142 | the safe readings add up to the engines' column total |
| UiUtils.TwoDigits | ui/utils.py:258 | a day prints as two digits whose value is the day |
| UiUtils.MonthNumber | ui/utils.py:258 | an abbreviation names its month, none for any other text |
| UiUtils.DayStampRoundTrip | ui/utils.py:258 | a '%b %d' stamp reads back as its month and day |
| UiUtils.FormatPayPeriod | ui/utils.py:254-258 | "No pay period selected" iff no period; otherwise the number, the first and last day and the last day's year |
| ReportsEngine.FilterByDate | ui/reports.py:1261-1277 | without a Date column the sheet is returned whole; otherwise exactly the rows whose date reads and lies in the period |
| ReportsEngine.FiltersAgree | ui/reports.py:1261-1277 | with every date readable the screen's and the service's filters agree; with an unreadable one the service keeps every row |
| ReportsEngine.AddNaN | ui/reports.py:1074 | a sum is a number iff both terms are |
| ReportsEngine.KindSumAsWritten | ui/reports.py:1069-1074 | as written the sum is a number iff every revenue reads, and then it is the rate applied to the column total |
| ReportsEngine.KindSum | ui/reports.py:1069-1074 | corrected: unreadable revenue counts as 0, so the sum is the rate applied to the column total |
| ReportsEngine.UnitCommissions | ui/reports.py:1060-1092 | a unit's lead, sales and work-done commissions are the rates applied to the revenue of the rows naming or listing the employee |
| ReportsEngine.UnitCommissionsAsWritten | ui/reports.py:1060-1092 | the same, with NaN for any unreadable revenue among those rows |
| ReportsEngine.EmployeeCommissions | ui/reports.py:1050-1094 | nothing without a revenue column; otherwise the sum over every unit of the settings |
| ReportsEngine.EmployeeCommissionsAsWritten | ui/reports.py:1050-1094 | the same as written, with NaN spreading through the sum |
| ReportsEngine.AsWrittenAgreesWhenReadable | ui/reports.py:1050-1094 | when every revenue reads, the as-written and corrected results agree |
| ReportsEngine.BlankRevenuePoisonsTotal | ui/reports.py:1069-1074 | one blank revenue cell turns the lead-generation total into NaN as written; corrected it is 10.0 |
| ReportsEngine.UnitAgreesWithService | ui/reports.py:1060-1092 | for an enabled unit with positive rates and no overrides the screen's unit total equals the service's detail total; a disabled unit pays nothing in the service |
| ReportsEngine.ToProcess | ui/reports.py:956-965 | the one selected employee, or for all employees the names the bulk filter keeps; the filter needs both its columns |
| ReportsEngine.EligibleNames | ui/reports.py:960-965 | a name is kept iff its row is commission eligible and not excluded from payroll |
| ReportsEngine.HourlyRate | ui/reports.py:982 | 0 without the column; a number, a boolean or a numeric text converts; a date or other text raises |
| ReportsEngine.RatioOrZero | ui/reports.py:1040-1041 | 0 when the divisor is not positive, otherwise the quotient |
| ReportsEngine.FirstRow | ui/reports.py:970-974 | the employee's first row, none iff no row has that name |
| ReportsEngine.Settle | ui/reports.py:987-1009 | hourly pay at the rate with overtime at 1.5x and double time at 2x, reconciled with the commissions under the plan |
| ReportsEngine.PayDetailFor | ui/reports.py:969-1045 | a detail iff the employee has a row that is eligible and not excluded; an error iff then the rate cannot be converted |
| ReportsEngine.PaidNames | ui/reports.py:969-980 | exactly the listed names the report pays |
| ReportsEngine.PayDetailsOf | ui/reports.py:967-1047 | one detail per paid employee, in order, each consistent with the inputs |
| ReportsEngine.PayDetails | ui/reports.py:947-1047 | the report on the period's rows: fails when the bulk filter cannot run; names the selected employee or the bulk filter's names, skipping the unpaid |
| ReportsEngine.CommissionShareIsPercentage | ui/reports.py:1041 | with non-negative pay the commission's share of the final pay is between 0 and 100 percent under either plan |
| EmployeeModel.CheckName | models/employee.py:9-25 | accepted iff the name as given has 1 to 100 characters and is not blank, and then stored stripped; the length error comes first, then the blank error |
| EmployeeModel.CheckAmount | models/employee.py:10-31 | accepted iff not negative, then quantized to cents with ties to even |
| EmployeeModel.MakeEmployee | models/employee.py:7-31 | accepted iff the name is acceptable and the amounts are not negative; the record is active, holds the stripped name and the quantized rate and hours |
| EmployeeModel.LaborCostIsHourlyPay | models/employee.py:38-56 | the record's labor cost is the hourly pay with overtime at 1.5x and double time at 2x |
| EmployeeModel.LaborCostNonNegative | models/employee.py:38-56 | a well-formed record's labor cost is not negative |
| EmployeeModel.UpdateHours | models/employee.py:58-67 | each given value replaces its field, a negative one as 0; missing ones and every other field stay |
| EmployeeModel.UpdateHoursKeepsNonNegative | models/employee.py:58-67 | hours stay non-negative, and updating twice with the same values is updating once |
| EmployeeModel.UpdateHoursTotal | models/employee.py:33-67 | after setting non-negative hours the total is their sum |
| UnitModel.MakeUnit | models/business_unit.py:7-34 | accepted iff the name has 1 to 100 characters and is not blank, the rate lies in [0, 100] and the revenue is not negative; rate and revenue are quantized to cents |
| UnitModel.PoolWithinRevenue | models/business_unit.py:35-38 | a unit's pool is between 0 and its revenue |
| UnitModel.UpdateRate | models/business_unit.py:40-45 | a rate outside [0, 100] is refused; an accepted one is stored as given and nothing else changes |
| UnitModel.ParseStatus | models/business_unit.py:69 | only the four status names are accepted, each as itself |
| UnitModel.StatusRoundTrip | models/business_unit.py:69 | every status reads back from its name |
| UnitModel.MakeCommission | models/business_unit.py:62-80 | accepted iff the amount is not negative and the percentage lies in [0, 100]; a new commission is pending |
| UnitModel.AdjustedAmountBounds | models/business_unit.py:82-85 | the adjusted amount lies between 0 and the amount, and is the amount at the default 100% |
| UnitModel.Approve | models/business_unit.py:87-92 | approving sets the status and the approver whatever the status was, and keeps the rest |
| UnitModel.MarkPaid | models/business_unit.py:94-100 | paying succeeds iff the commission is approved, and then only the status changes |
| UnitModel.ApproveThenPay | models/business_unit.py:87-100 | approving then paying succeeds, and paying twice without a new approval fails |
| UnitModel.MakeSplit | models/business_unit.py:122-137 | accepted iff the total is non-negative with at most two decimals and the percentages sum to within 0.01 of 100 |
| UnitModel.EmployeeAmount | models/business_unit.py:139-143 | nothing for an employee not in the split, else the employee's percentage of the total |
| UnitModel.SplitPaysOutTotal | models/business_unit.py:133-143 | paying every employee of an accepted split pays out its total to within 0.01% |
| PoolCalculator.NewCalculator | models/calculator.py:19-29 | a new calculator holds nothing |
| PoolCalculator.AddEmployee | models/calculator.py:42-49 | the employee is stored under its id, a new id at the end of the order; nothing else changes |
| PoolCalculator.AddUnit | models/calculator.py:51-58 | the unit is stored under its id the same way |
| PoolCalculator.FindEmployeeByName | models/calculator.py:157-163 | the first employee, in insertion order, whose lower-cased name is the lower-cased stripped query; none iff there is none |
| PoolCalculator.FindUnitByName | models/calculator.py:165-171 | the same lookup among the units |
| PoolCalculator.ActiveIds | models/calculator.py:186-189 | exactly the active employees with hours, in order |
| PoolCalculator.SplitShare | models/calculator.py:237-242 | the percentage of the first manual split listing the employee, whatever its job; none iff no split lists them |
| PoolCalculator.SplitPercentage | models/calculator.py:237-242 | 100 when no split lists the employee |
| PoolCalculator.IssueAll | models/calculator.py:199-217 | one commission per employee, in order, until a construction fails |
| PoolCalculator.UnitRun | models/calculator.py:180-217 | none for a unit without revenue or without active employees; otherwise one commission per active employee unless one fails |
| PoolCalculator.Collect | models/calculator.py:179-217 | runs one after another; the whole succeeds iff every run does |
| PoolCalculator.CalculateCommissions | models/calculator.py:173-235 | the previous commissions are replaced by those issued before any failure, each pending and for a known active employee |
| PoolCalculator.SharesMakePool | models/calculator.py:196-205 | whatever the labor costs, the active employees' shares add up to the whole pool |
| PoolCalculator.SharesAreScaled | models/calculator.py:200-202 | the shares by labor cost are the pool scaled by each employee's labor cost over the labor total, and those costs add up to the labor over the same employees |
| PoolCalculator.ScaledSumOf | models/calculator.py:200-202 | parts each scaled by the pool over the total add up to the pool's part of their sum |
| PoolCalculator.SharesEqual | models/calculator.py:203-205 | equal shares add up to one part per employee |
| PoolCalculator.CommissionsPayOutPools | models/calculator.py:173-235 | a completed calculation pays out every unit's pool to within half a cent per commission |
| PoolCalculator.CalculationIdempotent | models/calculator.py:173-177 | calculating twice gives the same commissions as calculating once |
| PoolCalculator.CommissionsOf | models/calculator.py:250-279 | exactly the commissions of the employee or unit, in order |
| PoolCalculator.Breakdown | models/calculator.py:262-296 | a name lookup fails iff a key is unnamed; otherwise one line per commission with its adjusted amount, adding up to their total |
| PoolCalculator.EmployeeSummaryOf | models/calculator.py:244-269 | nothing for an unknown id; otherwise earnings are labor cost plus the adjusted commissions |
| PoolCalculator.UnitSummaryOf | models/calculator.py:271-297 | nothing for an unknown id; otherwise profit after commission is revenue less the unit's adjusted commissions, with the number of employees paid |
| PoolCalculator.PendingCount | models/calculator.py:314 | no more than the commissions, and 0 iff none is pending |
| PoolCalculator.AnalyticsOf | models/calculator.py:299-320 | revenue, labor and paid commissions are the sums over the units, employees and commissions; the pending count is the number of pending commissions; gross profit is revenue less labor less commissions; the margin is its percentage of revenue, 0 without revenue |
| PoolCalculator.KeysPartitionCommissions | models/calculator.py:244-297 | listing the commissions key by key, over keys naming each commission's key once, counts each commission once |
| PoolCalculator.SummariesAddUp | models/calculator.py:244-320 | the unit summaries' and the employee summaries' commissions each add up to the analytics total |
| PoolCalculator.AddUnitRevenue | models/calculator.py:51-58 | storing a unit changes the total revenue by the change in its own revenue |
| CalculatorImports.MissingColumns | models/calculator.py:65-66 | exactly the required columns the sheet lacks, in the required order; none when every one is present |
| CalculatorImports.RowName | models/calculator.py:75-84 | the stripped text of the name cell; a missing cell reads "nan" as written and blank once corrected |
| CalculatorImports.NanName | models/calculator.py:75-85 | the text a missing cell reads as is stripped and not blank, so it is not skipped |
| CalculatorImports.SetHours | models/calculator.py:94-98 | only the employee's hours change; the order, the other employees and the units stay |
| CalculatorImports.NewEmployee | models/calculator.py:89-91 | a new employee from a stripped non-empty name fails only on length |
| CalculatorImports.TimesheetRowSkips | models/calculator.py:83-85 | a row whose stripped name is blank leaves the calculator as it was |
| CalculatorImports.TimesheetRowFails | models/calculator.py:83-98 | a named row fails exactly when nobody has the name and the name is too long to store |
| CalculatorImports.NamedRowOutcome | models/calculator.py:86-98 | a known name always gets the hours; an unknown one fails only when too long; only the employee table changes |
| CalculatorImports.TimesheetRowKeeps | models/calculator.py:83-98 | a row changes only the employee table, keeps the calculator's invariants, adds no employee but the new one and renames nobody |
| CalculatorImports.ImportRows | models/calculator.py:82-98 | rows in order; the units and commissions stay and the invariants hold |
| CalculatorImports.ImportTimesheet | models/calculator.py:60-108 | a sheet lacking a required column is refused and changes nothing; success iff no error; units and commissions untouched |
| CalculatorImports.ImportedNamesFound | models/calculator.py:82-98 | after a completed import every name the sheet gives is found among the employees |
| CalculatorImports.NamelessRowAsWritten | models/calculator.py:75-91 | as written a one-row sheet with no name imports an employee named "nan" |
| CalculatorImports.NamelessRowCorrected | models/calculator.py:75-91 | corrected, the same sheet imports successfully and creates no employee |
| CalculatorImports.OneRowImport | models/calculator.py:82-98 | a one-row sheet whose row goes through imports to the state after that row |
| CalculatorImports.SheetComplete | models/calculator.py:60-108 | a sheet with all required columns whose rows all go through reports success with the imported state |
| CalculatorImports.Groups | models/calculator.py:131 | the groups in ascending order, each once, exactly those of the rows |
| CalculatorImports.UnitNameFor | models/calculator.py:134-135 | blank and "nan" groups go to "Unassigned", any other keeps its name |
| CalculatorImports.ApplyGroup | models/calculator.py:133-144 | a group's revenue is booked to its unit, found by name or created; fails iff an unknown name cannot be a unit |
| CalculatorImports.NewUnit | models/calculator.py:139-141 | a new unit is accepted iff its name is acceptable, and holds the stripped name |
| CalculatorImports.SetRevenue | models/calculator.py:144 | only the unit's revenue changes, and the total revenue by the difference |
| CalculatorImports.ApplyGroups | models/calculator.py:133-144 | groups in order; employees and commissions stay and the invariants hold |
| CalculatorImports.ImportRevenue | models/calculator.py:110-155 | a sheet without 'Revenue' is refused with that message and changes nothing; success iff no error; employees untouched |
| CalculatorImports.GroupsPartitionRevenue | models/calculator.py:131 | summing group by group over the sheet's groups adds up the whole revenue column |
| CalculatorImports.ApplyGroupsAdd | models/calculator.py:133-144 | corrected, booking the groups adds all their revenue to the total |
| CalculatorImports.RevenueImportConserves | models/calculator.py:110-155 | corrected, an import into units without revenue leaves them holding exactly the sheet's revenue |
| CalculatorImports.UnassignedOverwrittenAsWritten | models/calculator.py:131-144 | a sheet of 150 split between "Unassigned" and a missing unit books 50 as written and 150 corrected |
| Auth.ParseRole | utils/auth.py:113-118 | only the three role names are known, each as itself |
| Auth.RoleRoundTrip | utils/auth.py:113-118 | every role reads back from its name |
| Auth.LevelIsRank | utils/auth.py:113-121 | a known name ranks as its role and an unknown one as a viewer |
| Auth.PermissionByRank | utils/auth.py:111-123 | for known roles the check is the role order; an unknown required role admits everyone; an unknown user role admits what a viewer's does |
| Auth.PermissionPreorder | utils/auth.py:111-123 | the check is reflexive, transitive and total, with admin above everything |
| Auth.RequireAuth | utils/auth.py:154-162 | the login page iff nobody is signed in; allowed iff the user's role reaches the required one; otherwise the denial message |
| AppConfig.MakeBusiness | utils/config.py:39-109 | building the business section fails iff a setting is unknown; missing settings take their defaults, and missing or empty commission rates become the default rates |
| AppConfig.UpdateSection | utils/config.py:159-182 | the settings the section has take the updated values; the others are ignored |
| AppConfig.UpdateConfig | utils/config.py:151-191 | each known section gets the updates and every other section stays; an unknown section name changes nothing |
| AppConfig.UpdateIgnoresUnknown | utils/config.py:159-182 | updates naming no setting change nothing |
| AppConfig.UpdateIdempotent | utils/config.py:151-191 | updating twice with the same settings is updating once |
| AppConfig.AtLeast | utils/config.py:212-222 | a lower bound fails iff the setting is not a number; its message appears iff the setting is below the bound |
| AppConfig.AtMost | utils/config.py:228-229 | an upper bound fails iff the setting is not a number; its message appears iff the setting is above the bound |
| AppConfig.ValidateConfig | utils/config.py:199-235 | fails iff a compared setting is not a number; otherwise no message iff every bound holds, and at most one message per check |
| AppConfig.DefaultsAreValid | utils/config.py:12-235 | the default configuration passes validation |
| AppConfig.LoadedBusinessGetsDefaultRates | utils/config.py:104-109 | business settings loaded without commission rates get the default rates |
| ScreenConfig.UpdatePerformance | ui/config.py:125-130 | the performance settings it has take the updated values, others are ignored, other sections stay |
| ScreenConfig.UpdateBusiness | ui/config.py:132-137 | the same for the business section |
| ScreenConfig.UpdateUi | ui/config.py:139-144 | the same for the display section |
| ScreenConfig.UnknownSettingsIgnored | ui/config.py:125-144 | unknown settings leave every section as it was |
| ScreenConfig.GetSetting | ui/config.py:113-123 | the setting, or the given default when the section lacks it |
| ScreenConfig.EnvironmentConfig | ui/config.py:146-170 | production doubles batches and cache times, development (also when unset) halves them, anything else keeps them; only development debugs and profiles |
| ScreenConfig.AdaptiveBatchSize | ui/config.py:172-187 | the base scaled by the environment and truncated; a small data set caps it at its size, a very large one raises it to at least 2000 |
| ScreenConfig.DefaultBatchSizes | ui/config.py:172-187 | with a base of 1000 a mid-sized data set gets 2000 in production, 500 in development, 1000 elsewhere |
| ScreenConfig.OptimizeForDataSize | ui/config.py:196-224 | below 1000 rows at most 100 a batch and no caching; from 10000 rows on lazy loading is on |
| ScreenConfig.PlanBatchBounds | ui/config.py:196-224 | a plan never batches more rows than a small data set has, and a base of at least 2 gives a positive batch otherwise |
| AppErrors.MakeError | services/exceptions.py:9-14 | the error keeps its kind, message and code; a missing context becomes empty |
| AppErrors.Text | services/exceptions.py:16-19 | "[code] message" when the code is set and not empty, the bare message otherwise |
| AppErrors.MessageEndsText | services/exceptions.py:16-19 | the message always ends the text |
| AppErrors.Handle | services/exceptions.py:151-172 | results and application errors pass through; any other failure becomes an application error |
| AppErrors.HandleIdempotent | services/exceptions.py:151-172 | wrapping twice is wrapping once, and the wrapper fails exactly when the call does |
| AppErrors.UnexpectedText | services/exceptions.py:165-170 | a wrapped foreign failure carries the UNEXPECTED_ERROR code and names the function |
| Notifications.ParseKind | utils/notifications.py:22-29 | `NotificationType(value)` answers the kind whose value is `v`, and none exactly when no kind has that value |
| Notifications.MakeNotification | utils/notifications.py:41-63 | a new notification keeps every given attribute, starts unread and not dismissed, and an absent metadata map becomes empty |
| Notifications.ToDict | utils/notifications.py:65-81 | the dictionary has exactly the twelve attribute keys, with the kind and priority stored as their enum values |
| Notifications.TextAt | utils/notifications.py:86-87 | a required text field reads only when present and textual, and gives that text |
| Notifications.OptTextAt | utils/notifications.py:91-93 | `data.get(key)`: an absent or null field reads as none, a text field as that text, anything else fails |
| Notifications.FlagAt | utils/notifications.py:92-98 | `data.get(key, False)`: an absent flag reads as false, a boolean as itself |
| Notifications.FromDict | utils/notifications.py:83-99 | id, title, message, type, priority and created_at are required; an unknown type or a priority outside 1-4 fails; absent metadata, read, dismissed and persistent default to empty or false |
| Notifications.FromToDict | utils/notifications.py:65-99 | reading back a notification's own dictionary gives the same notification |
| Notifications.Add | utils/notifications.py:140-179 | the new notification goes to the front; the queue grows by one until full, after which the oldest falls off and the rest keep their order |
| Notifications.AddWithRoom | utils/notifications.py:165 | adding to a queue that is not full loses nothing |
| Notifications.FirstWithId | utils/notifications.py:206-209 | finds the first notification with the id, and none exactly when no notification has it |
| Notifications.MarkAsRead | utils/notifications.py:204-219 | only the first notification with the id becomes read and every other entry is unchanged; an unknown id changes nothing |
| Notifications.MarkAsReadIdempotent | utils/notifications.py:204-219 | marking the same id twice is the same as marking it once |
| Notifications.MarkAllAsRead | utils/notifications.py:221-234 | every notification of the user (every one, when no user is given) becomes read, and the rest are unchanged |
| Notifications.Where | utils/notifications.py:238-273 | a filter keeps exactly the notifications meeting its criterion, in order |
| Notifications.WhereAppend | utils/notifications.py:238-273 | filtering distributes over concatenation |
| Notifications.WhereIdempotent | utils/notifications.py:238-273 | filtering twice by the same criterion is filtering once |
| Notifications.Dismiss | utils/notifications.py:236-251 | removes every notification with the id and nothing else, within the same capacity |
| Notifications.DismissIdempotent | utils/notifications.py:236-251 | dismissing twice is dismissing once |
| Notifications.Prefix | utils/notifications.py:275-277 | Python's `s[:limit]`, where a negative limit drops that many from the end |
| Notifications.Select | utils/notifications.py:253-279 | the single-pass reference selection: exactly the notifications of the user (when one is named), of the kind and, on request, unread |
| Notifications.FiltersAppend | utils/notifications.py:262-273 | the three filters in turn distribute over concatenation |
| Notifications.FiltersAreSelect | utils/notifications.py:262-273 | the user, type and unread filters applied in turn equal the single-pass selection |
| Notifications.GetIsSelected | utils/notifications.py:253-279 | `get_notifications` without a limit (or with limit 0) is the selection; with a limit it is a prefix of it |
| Notifications.CountUnread | utils/notifications.py:281-284 | the reference count of a user's unread notifications never exceeds the queue length |
| Notifications.SelectCount | utils/notifications.py:281-284 | the number of selected unread notifications equals the one-by-one count |
| Notifications.UnreadCountIsCount | utils/notifications.py:281-284 | `get_unread_count` equals the one-by-one count of unread notifications in scope |
| Notifications.MarkedCountsZero | utils/notifications.py:221-284 | once every in-scope notification is read, the unread count of that scope is zero |
| Notifications.MarkAllClearsUnread | utils/notifications.py:221-284 | after `mark_all_as_read(user)` for no user or a non-empty one, that user's unread count is zero |
| Notifications.ClearOld | utils/notifications.py:286-300 | keeps exactly the persistent notifications and those created after `now - days*86400`, in order |
| Notifications.OperationsKeepBound | utils/notifications.py:204-300 | marking, dismissing and clearing never push the queue past its capacity |
| ApprovalWorkflow.LevelIndex | utils/approval_workflow.py:24-29 | a level's place in the supervisor-to-executive hierarchy is one of four |
| ApprovalWorkflow.InsertBy | utils/approval_workflow.py:167 | inserting into a list sorted by key keeps it sorted and adds exactly that element |
| ApprovalWorkflow.InsertedAbove | utils/approval_workflow.py:167 | insertion after the head keeps order and contents |
| ApprovalWorkflow.SortBy | utils/approval_workflow.py:167 | `sorted(..., key=...)` gives an ordered permutation of the rules |
| ApprovalWorkflow.SortSorted | utils/approval_workflow.py:167 | sorting an already ordered list leaves it unchanged, as Python's stable sort does |
| ApprovalWorkflow.FirstMatch | utils/approval_workflow.py:167-172 | the first active rule whose band holds the amount, and none exactly when no rule matches |
| ApprovalWorkflow.FirstByMinUnique | utils/approval_workflow.py:165-173 | at most one matching rule comes first by ascending minimum amount with ties broken by position |
| ApprovalWorkflow.SortedFirstRule | utils/approval_workflow.py:165-173 | scanning the rules sorted by minimum amount finds a rule iff some active rule holds the amount, and the rule found is the first by minimum amount, ties by position |
| ApprovalWorkflow.RequiredLevel | utils/approval_workflow.py:165-173 | a level is required exactly when some active rule holds the amount, and it is the level of the matching rule with the smallest minimum amount, the earlier one on a tie |
| ApprovalWorkflow.OverlappingBandsExample | utils/approval_workflow.py:165-173 | with a supervisor band 0-1000 and a manager band 500-2000, an amount of 700 needs a supervisor |
| ApprovalWorkflow.AutoApprovable | utils/approval_workflow.py:175-182 | true exactly when some active rule has a non-zero threshold above the amount |
| ApprovalWorkflow.DefaultRulesSorted | utils/approval_workflow.py:126-167 | the default rules are already in order of lower bound |
| ApprovalWorkflow.DefaultLevel | utils/approval_workflow.py:126-173 | under the default rules the level is that of the first default band holding the amount |
| ApprovalWorkflow.DefaultBands | utils/approval_workflow.py:126-173 | under the default rules negative amounts need no level, up to 2000 a supervisor, up to 5000 a manager, up to 10000 a director and above that an executive, each band inclusive at its top |
| ApprovalWorkflow.DefaultFirstMatch | utils/approval_workflow.py:126-173 | which of the five default bands first holds each amount |
| ApprovalWorkflow.FirstMatchAt | utils/approval_workflow.py:167-172 | the first match is at `i` when nothing earlier matches and rule `i` does |
| ApprovalWorkflow.DefaultAutoApproval | utils/approval_workflow.py:126-182 | under the default rules exactly the amounts below 500 are approved without review |
| ApprovalWorkflow.Create | utils/approval_workflow.py:184-222 | the new request is filed under its id with the amount and time given; it is auto-approved iff the amount is auto-approvable and pending otherwise; its level is the band's, or supervisor when no band holds it |
| ApprovalWorkflow.CommentsAdded | utils/approval_workflow.py:62-68 | a comment is recorded exactly when the text is given and not empty |
| ApprovalWorkflow.Approve | utils/approval_workflow.py:248-287 | succeeds exactly for a known pending request, which becomes approved with its approver and time; otherwise nothing changes |
| ApprovalWorkflow.Reject | utils/approval_workflow.py:289-327 | succeeds exactly for a known pending request, which becomes rejected and keeps the reason; otherwise nothing changes |
| ApprovalWorkflow.Escalate | utils/approval_workflow.py:329-353 | succeeds exactly for a known request below executive level, whatever its status; that request becomes escalated and nothing else changes |
| ApprovalWorkflow.DecidedOnce | utils/approval_workflow.py:248-327 | once a request is approved or rejected, a second approval or rejection fails |
| ApprovalWorkflow.EscalatedCannotBeDecided | utils/approval_workflow.py:260-348 | an escalated request can no longer be approved or rejected |
| ApprovalWorkflow.EscalationsEnd | utils/approval_workflow.py:337-353 | escalation succeeds at most three times in a row |
| ApprovalWorkflow.Values | utils/approval_workflow.py:360-376 | the requests in filing order, exactly the stored ones |
| ApprovalWorkflow.Where | utils/approval_workflow.py:359-384 | a filter keeps exactly the requests meeting its test, in order |
| ApprovalWorkflow.PendingApprovals | utils/approval_workflow.py:355-369 | exactly the pending and escalated requests, at the given level when one is given, newest first |
| ApprovalWorkflow.EscalationReopens | utils/approval_workflow.py:329-369 | after a successful escalation, even of an approved request, it is among the pending approvals |
| ApprovalWorkflow.Prefix | utils/approval_workflow.py:386 | Python's `s[:limit]`, where a negative limit drops that many from the end |
| ApprovalWorkflow.HistoryFilter | utils/approval_workflow.py:378-384 | the employee filter then the status filter keep exactly the requests meeting both |
| ApprovalWorkflow.History | utils/approval_workflow.py:371-386 | the stored requests meeting the filters, newest first, as many as the limit allows (all of them when the limit covers them); no matching request left out is newer than one returned |
| ApprovalWorkflow.SortedMembers | utils/approval_workflow.py:369-386 | sorting by time keeps exactly the same requests |
| ApprovalWorkflow.StatusesPartition | utils/approval_workflow.py:16-22 | each request has exactly one of the five statuses, so the five counts add up to the total |
| ApprovalWorkflow.ApprovalHours | utils/approval_workflow.py:408-413 | the approval times counted are at most the number of approved requests |
| ApprovalWorkflow.ApprovalRate | utils/approval_workflow.py:417-418 | the rate is a percentage: 0 when nothing is decided or nothing approved, 100 exactly when something is approved and nothing rejected |
| ApprovalWorkflow.ApprovalMetrics | utils/approval_workflow.py:388-429 | the total is the number of requests, the status counts fall short of it only by the escalated ones, and the rate is the approval rate of the counts |
| ApprovalWorkflow.Approvers | utils/approval_workflow.py:236-246 | every level has an approver: two at supervisor and manager level, one above |
| Validators.StrippedTextStable | utils/validators.py:34-60 | stripping text that is already stripped changes nothing |
| Validators.CleanedColumns | utils/validators.py:34-60 | the columns cleaning rewrites include the name and every hours column |
| Validators.CleanCell | utils/validators.py:34-60 | after cleaning, the name and the optional columns are stripped text, hours are numbers with unreadable values read as 0, and other columns are untouched |
| Validators.CleanTimesheetRow | utils/validators.py:34-60 | a cleaned row has the original columns plus the cleaned ones, each holding its cleaned value, and its name is the stripped name text |
| Validators.CleanedNamed | utils/validators.py:34 | a cleaned row's name is text |
| Validators.KeptRows | utils/validators.py:35-36 | exactly the rows whose stripped name is not empty and not nan, none or null in any case, in order |
| Validators.CleanTimesheetRows | utils/validators.py:34-60 | one cleaned row for each kept row, in order |
| Validators.HourMessages | utils/validators.py:39-49 | there is no message exactly when no hours column has a value of that kind (negative, or above 100) |
| Validators.DuplicatedNames | utils/validators.py:52 | every name that occurs more than once, each listed once |
| Validators.Names | utils/validators.py:52 | the name text of every row, in order |
| Validators.ValidateTimesheet | utils/validators.py:12-65 | an empty sheet, or one missing any of the four required columns, is refused unchanged with its message; otherwise the cleaned sheet is valid exactly when no kept row has negative hours |
| Validators.CleanRowIdempotent | utils/validators.py:30-60 | cleaning a cleaned row changes nothing |
| Validators.CleanCellStable | utils/validators.py:30-60 | each cell of a cleaned row cleans to itself |
| Validators.CleanedKept | utils/validators.py:35-36 | a row that survives cleaning survives a second cleaning |
| Validators.KeptRowsAll | utils/validators.py:35-36 | when every row is kept, filtering keeps them all |
| Validators.CleanRowsIdempotent | utils/validators.py:30-60 | a cleaned timesheet is its own cleaning |
| Validators.FirstColumnWith | utils/validators.py:79-101 | the first column whose lower-cased name holds one of the words, and none exactly when no column does |
| Validators.UnitOf | utils/validators.py:100-116 | every revenue row is assigned a real unit: the source column's stripped text unless it is empty or one of the six placeholder spellings (nan, NaN, none, None, null), and Unassigned otherwise |
| Validators.CleanRevenueRow | utils/validators.py:88-116 | the revenue column is renamed Revenue and read as a number (unreadable as 0), the unit column is filled in, and the other columns are kept |
| Validators.CleanRevenueRows | utils/validators.py:88-116 | one cleaned row per input row, in order, each assigned a unit |
| Validators.NonZero | utils/validators.py:118-122 | exactly the rows with non-zero revenue, in order |
| Validators.NonZeroSum | utils/validators.py:118-125 | dropping the zero rows leaves the total unchanged and removes exactly the zero-revenue count |
| Validators.CleanedRevenueSum | utils/validators.py:94-125 | the cleaned total is the sum of the original revenue column read as numbers |
| Validators.CleanRevenue | utils/validators.py:88-132 | no zero row survives and every row has a unit; the total of the original column is kept; the sheet is valid exactly when that total is not zero |
| Validators.ValidateRevenue | utils/validators.py:68-132 | an empty sheet or one without a revenue or amount column is refused unchanged; it fails exactly when a column named Revenue is not the revenue column (the renaming leaves two) or the unit column is the revenue column; otherwise the result is the cleaning of the first revenue column |
| Validators.AmountBeforeRevenue | utils/validators.py:79-94 | a sheet with an Amount column before a Revenue column fails, as `to_numeric` is handed two columns |
| Validators.RevenueColumnOf | utils/validators.py:79-85 | the revenue column is one of the sheet's columns |
| Validators.UnitColumnOf | utils/validators.py:101-104 | the unit column is one of the sheet's columns |
| Validators.UnitSourceOf | utils/validators.py:101-113 | units come from the unit column when there is one, else from Job, else from Project, else nowhere |
| Validators.Rename | utils/validators.py:91 | renaming replaces exactly the one column name by Revenue |
| Validators.RateErrors | utils/validators.py:143-147 | there is no error exactly when every rate lies in [0, 100] |
| Validators.ValidateCommissionRates | utils/validators.py:135-151 | no rates is an error; otherwise the rates are valid exactly when each lies in [0, 100], and valid exactly when there is no message |
| Validators.HourlyMessages | utils/validators.py:163-172 | there is no error exactly when every rate, missing counted as 0, is positive |
| Validators.ValidateHourlyRates | utils/validators.py:154-178 | no employees is an error; otherwise valid exactly when every hourly rate (missing counted as 0) is positive |
| Validators.FirstBadShare | utils/validators.py:191-195 | the first share below 0 or above 100, and valid exactly when every share lies in [0, 100] |
| Validators.ValidateSplit | utils/validators.py:181-197 | valid exactly when there are splits, they sum to within 0.01 of 100, and each lies in [0, 100]; a bad total reports that total |
| Validators.ValidateDateRange | utils/validators.py:200-213 | valid exactly when the start precedes the end, the range spans at most 365 whole days, and the end is not in the future |
| Validators.ReplaceUnsafe | utils/validators.py:221 | each of the nine unsafe characters becomes an underscore and every other character is kept |
| Validators.LastDot | utils/validators.py:225 | the position of the last dot, and none exactly when there is no dot |
| Validators.Head | utils/validators.py:226 | Python's `name[:k]`, where a negative bound drops that many from the end |
| Validators.SanitizeFilenameAsWritten | utils/validators.py:216-228 | as written: no unsafe character survives, and a name of at most 200 characters is only cleaned |
| Validators.LongExtensionAsWritten | utils/validators.py:224-226 | as written: a name with a 200-character extension comes out at 201 characters, over the cap |
| Validators.LastDotAt | utils/validators.py:225 | a dot with no dot after it is the last dot |
| Validators.SanitizeFilename | utils/validators.py:216-228 | as intended: no unsafe character, never more than 200 characters, short names only cleaned, an extension that fits is kept |
| Validators.LastDotSame | utils/validators.py:221-225 | replacing unsafe characters does not move the last dot |
| Validators.SanitizeIdempotent | utils/validators.py:216-228 | sanitising a sanitised name changes nothing |
| Analytics.WorkingCount | pages/analytics_dashboard.py:882 | the employees with hours never outnumber the employees |
| Analytics.Ratio | pages/analytics_dashboard.py:885-893 | a guarded ratio is 0 when the denominator is not positive and otherwise times the denominator gives the numerator |
| Analytics.RatioAtMostOne | pages/analytics_dashboard.py:885-893 | a part of a positive whole is a share between 0 and 1 |
| Analytics.PerformanceMetrics | pages/analytics_dashboard.py:876-896 | as intended: each of the nine metrics is the guarded ratio of the revenue, labor, commission, hour and employee totals it names |
| Analytics.PerformanceMetricsAsWritten | pages/analytics_dashboard.py:876-896 | as written: fails exactly when some hours are booked, because the overtime ratio divides a `Decimal` by a `float`; otherwise the metrics are the intended ones, with overtime ratio and profit per hour 0 |
| Analytics.OneBookedHourRaises | pages/analytics_dashboard.py:891 | one employee with one regular hour makes the metrics fail as written, while the intended overtime ratio is 0% |
| Analytics.SharesOfRevenue | pages/analytics_dashboard.py:885-890 | with revenue on the books, operational efficiency, commission efficiency and labor-cost ratio add up to 100 |
| Analytics.UtilizationBounded | pages/analytics_dashboard.py:882-886 | employee utilization is a percentage |
| Analytics.ExtraHoursWithin | pages/analytics_dashboard.py:881-891 | with well-formed records, overtime and double time are part of the hours worked |
| Analytics.OvertimeRatioBounded | pages/analytics_dashboard.py:891 | with well-formed records the overtime ratio is a percentage |
| Analytics.MetricStatus | pages/analytics_dashboard.py:929-944 | good exactly at or beyond the good threshold and poor exactly short of both thresholds, reversed for metrics where smaller is better |
| Analytics.InverseIsNegation | pages/analytics_dashboard.py:929-944 | reading smaller values as better is reading the negated value and thresholds the usual way |
| Analytics.StatusMonotone | pages/analytics_dashboard.py:938-944 | a larger value never gets a worse status |
| Analytics.Fired | pages/analytics_dashboard.py:950-963 | each of the five pieces of advice appears exactly when its threshold is crossed |
| Analytics.Recommendations | pages/analytics_dashboard.py:946-968 | there is always advice: the all-good message alone exactly when no threshold is crossed, and otherwise the advice of the crossed thresholds |
| Analytics.CalculateKpis | services/analytics_service.py:27-66 | absent figures read as 0; the commission rate, revenue per employee and labor efficiency are rounded half-even to the cent when their denominators are positive and are 0 otherwise |
| Analytics.KpiRateMatchesDashboard | services/analytics_service.py:49-52 | for the same totals the KPI commission rate is within half a cent of the dashboard's commission efficiency |
| SafeAccess.ToFloat | error_scan_fixes.py:67-68 | `float(v)`: a number reads as itself, text only when it is a decimal, and None not at all |
| SafeAccess.SafeDivision | error_scan_fixes.py:53-82 | the quotient of the two operands read as numbers, or the default when either does not read or the denominator is zero |
| SafeAccess.RateProblems | error_scan_fixes.py:102-118 | there is no problem exactly when every rate reads as a number in [0, 100]; the running total is that of the readable rates, out-of-range ones included |
| SafeAccess.ValidateRates | error_scan_fixes.py:84-124 | no rates is an error; otherwise valid exactly when every rate reads as a number in [0, 100] and the readable rates total at most 100; valid exactly when there is no problem |
| SafeAccess.SafeFrameAccess | error_scan_fixes.py:15-51 | the default exactly for a missing or empty frame, an index outside the rows, or an unknown column; a column gives that row's cell and no column (or an empty name) the whole row |
| SafeAccess.FirstNamed | error_scan_fixes.py:153 | the first row named the query, and none exactly when no row is |
| SafeAccess.SafeEmployeeLookup | error_scan_fixes.py:126-165 | nothing for missing or empty data, a frame without a Name column or a blank query; otherwise the first row named the stripped query, and nothing only when no row is |
| SafeAccess.LookupIgnoresLaterRows | error_scan_fixes.py:153-161 | once a match exists, rows appended after it do not change the lookup |
| TimeValues.RunEnd | utils/timesheet_processor.py:91-92 | the digit run from a position ends at the first non-digit |
| TimeValues.BlanksEnd | utils/timesheet_processor.py:91-92 | the run of blanks `\s*` ends at the first non-blank |
| TimeValues.Search | utils/timesheet_processor.py:91-92 | `re.search`: the leftmost position where the pattern matches, and none exactly when it matches nowhere |
| TimeValues.FirstDigit | utils/timesheet_processor.py:102 | where `\d+\.?\d*` first matches: the first digit, and none exactly when there is no digit |
| TimeValues.ConvertAsWritten | utils/timesheet_processor.py:50-105 | as written: a blank value is 0 hours, a time of day is hours plus minutes/60 and a number itself, each rounded to the cent; every result is a whole number of cents |
| TimeValues.DecimalHoursAsWritten | utils/timesheet_processor.py:91-99 | as written: "w.f hours" reads as f hours, since the whole-number pattern skips "w." and matches the digits after the point |
| TimeValues.SevenAndAHalfHours | utils/timesheet_processor.py:91-99 | "7.5 hours" reads as 5 hours as written and as 7.5 hours once fractions are read |
| TimeValues.Convert | utils/timesheet_processor.py:50-105 | as intended: agrees with the code as written on every value except the text of words, where the hour and minute counts may carry a fraction |
| TimeValues.DecimalHoursRead | utils/timesheet_processor.py:91-99 | as intended: "w.f hours" reads as w.f hours, rounded to the cent |
| TimeValues.PrintedHoursReadBack | utils/timesheet_processor.py:73-75 | hours printed with two decimals read back unchanged |
| TimeValues.ClockTextAgrees | utils/timesheet_processor.py:79-86 | "H:MM" text reads as the same hours as the time of day H:MM |
| TimeValues.IntIsDecimal | utils/timesheet_processor.py:75-84 | whatever `int` reads, `float` reads as the same number |
| TimesheetProcessor.Present | utils/timesheet_processor.py:33 | `dropna`: no missing cell survives and none is invented |
| TimesheetProcessor.Samples | utils/timesheet_processor.py:33 | `dropna().head(5)`: at most five samples |
| TimesheetProcessor.DetectLayout | utils/timesheet_processor.py:20-48 | the totals layout is detected exactly when a sheet name mentions total or summary, or a sampled value of a regular, overtime or double column is written as a time |
| TimesheetProcessor.Kinds | utils/timesheet_processor.py:120-196 | every column is classified by the rule of its layout |
| TimesheetProcessor.LastOfSlot | utils/timesheet_processor.py:120-196 | the last column of a kind, and none exactly when no column has that kind |
| TimesheetProcessor.ScanSlots | utils/timesheet_processor.py:119-196 | a kind has a column exactly when some column is of that kind, and the last such column wins |
| TimesheetProcessor.HourNamed | utils/timesheet_processor.py:131-132 | exactly the columns whose lower-cased name mentions "hour" |
| TimesheetProcessor.GenericSlots | utils/timesheet_processor.py:129-138 | the first, second and third column mentioning hours become regular, overtime and double time, each only when that many exist |
| TimesheetProcessor.EntrySlots | utils/timesheet_processor.py:118-138 | the recognised hour columns, or the generic fallback when none was recognised |
| TimesheetProcessor.EntryEmployeeColumn | utils/timesheet_processor.py:112-116 | the first column mentioning "employee", and none exactly when no column does |
| TimesheetProcessor.TotalsEmployeeColumn | utils/timesheet_processor.py:175-183 | the first column mentioning "employee" but not "id", else the first mentioning "name", and none exactly when neither exists |
| TimesheetProcessor.RowHours | utils/timesheet_processor.py:158-218 | one kind's hours in a row are a whole number of cents, and 0 when the sheet has no column of that kind; the `corrected` flag picks the reading of hours: `convert_time_to_decimal` as written, or with decimal hours read as intended |
| TimesheetProcessor.TotalsOver | utils/timesheet_processor.py:149-166 | an employee's totals per kind are the sums of that kind over their rows, under either reading of hours, and Total Hours is the three kinds together |
| TimesheetProcessor.Employees | utils/timesheet_processor.py:143-145 | `unique()` without the missing value: each employee named in the sheet once, and nothing else |
| TimesheetProcessor.RowsOfAbsent | utils/timesheet_processor.py:147 | an employee who does not appear has no rows |
| TimesheetProcessor.Totalled | utils/timesheet_processor.py:141-168 | one totals row per employee, in order, over exactly that employee's rows |
| TimesheetProcessor.ProcessEntries | utils/timesheet_processor.py:108-170 | fails exactly when no column mentions "employee"; otherwise one balanced totals row per distinct employee, in order of first appearance |
| TimesheetProcessor.TotallingConserves | utils/timesheet_processor.py:140-168 | totalling by employee loses and invents no hours: per kind, the totals add up to the hours of every row that names an employee |
| TimesheetProcessor.TotalledExtend | utils/timesheet_processor.py:147-163 | an added row adds its hours to its own employee's totals only |
| TimesheetProcessor.NewEmployee | utils/timesheet_processor.py:143-168 | a row naming a new employee opens a totals row holding just that row's hours |
| TimesheetProcessor.EntriesConserveHours | utils/timesheet_processor.py:108-170 | `process_format_1`'s totals per kind equal the hours of all rows naming an employee, under either reading of hours |
| TimesheetProcessor.ProcessTotals | utils/timesheet_processor.py:172-229 | fails exactly when no employee or name column exists; otherwise one totals row per named row, in order, holding that row's converted hours |
| TimesheetProcessor.PerRow | utils/timesheet_processor.py:201-227 | one totals row for each named row, holding just that row |
| TimesheetProcessor.PerRowAppend | utils/timesheet_processor.py:201-227 | processing row by row distributes over concatenation |
| TimesheetProcessor.ReadingsAgree | utils/timesheet_processor.py:50-105 | the two readings of hours agree on every cell that is not text |
| TimesheetProcessor.DecimalHoursCell | utils/timesheet_processor.py:91-99 | a cell holding "7.5 hours" counts 5 hours as written and 7.5 once fractions are read |
| TimesheetProcessor.SingleRowHours | utils/timesheet_processor.py:213-218 | a one-row total is that row's converted hours, under either reading of hours |
| TimesheetProcessor.TotalsRowByRow | utils/timesheet_processor.py:172-229 | processing two sheets with the same columns in turn gives the rows of processing them together |
| TimesheetProcessor.NamedAppend | utils/timesheet_processor.py:202-203 | dropping unnamed rows distributes over concatenation |
| TimesheetProcessor.FirstName | utils/timesheet_processor.py:246-256 | the first sheet name passing the test, and none exactly when none does |
| TimesheetProcessor.ChosenSheet | utils/timesheet_processor.py:244-259 | the first sheet mentioning both total and employee, else the first mentioning total, else the first sheet; nothing only for a workbook without sheets |
| TimesheetProcessor.Chosen | utils/timesheet_processor.py:236-259 | a CSV file is its own table with no sheet names; a workbook gives one of its sheets with all its names, and nothing only when it has no sheets |
| TimesheetProcessor.GrandTotalSplits | utils/timesheet_processor.py:274-277 | when every row is balanced the grand total is the sum of the three kinds' totals |
| TimesheetProcessor.ProcessTimesheet | utils/timesheet_processor.py:231-285 | the chosen frame is processed by the detected layout; fails exactly when that fails, when there is no sheet, or when no row names an employee (the empty result has no 'Regular Hours' column to sum); the summary counts the rows, totals each kind, its grand total is the three together and it names the sheets, or CSV |
| UploadChecks.NumberErrors | api/services/data_upload_service.py:207-227 | a number cell has no error exactly when it is missing or reads as a non-negative number; at most one error, a format error exactly when it does not read, on that row and column |
| UploadChecks.RequiredErrors | api/services/data_upload_service.py:197-204 | a required cell has an error exactly when it is missing or blank |
| UploadChecks.ChoiceErrors | api/services/data_upload_service.py:357-381 | a present choice cell has an error exactly when its stripped text is neither empty nor one of the choices |
| UploadChecks.HourErrors | api/services/data_upload_service.py:207-227 | a row's hour columns have no error exactly when each is good, and every error carries that row's number |
| UploadChecks.RowErrors | api/services/data_upload_service.py:195-381 | a row has no error exactly when it passes every check of its kind of sheet, and every error carries its number |
| UploadChecks.TimesheetRowErrors | api/services/data_upload_service.py:195-227 | a timesheet row has no error exactly when its name is given and its hours are good |
| UploadChecks.RevenueRowErrors | api/services/data_upload_service.py:260-291 | a revenue row has no error exactly when its unit is given and its revenue is good |
| UploadChecks.EmployeeRowErrors | api/services/data_upload_service.py:324-381 | an employee row has no error exactly when its name, rate, status and plan pass |
| UploadChecks.RowsErrors | api/services/data_upload_service.py:195-199 | the sheet has no row error exactly when every row is clean, and each error names one of its row numbers, counted from 1 |
| UploadChecks.CheckRows | api/services/data_upload_service.py:229-383 | the sheet is kept exactly when there are no errors, which is exactly when every row is clean |
| UploadChecks.ColumnsWhere | api/services/data_upload_service.py:181-184 | exactly the columns passing the test, in order |
| UploadChecks.CheckTimesheet | api/services/data_upload_service.py:164-229 | no Employee Name column, or no column mentioning hour together with reg, ot, dt, overtime or double, is a column error; the sheet is kept exactly when both exist and every row is clean |
| UploadChecks.CheckRevenue | api/services/data_upload_service.py:231-293 | no business-unit column, or no revenue, total or amount column, is a column error; otherwise the first of each is checked and the sheet is kept exactly when every row is clean |
| UploadChecks.CheckEmployees | api/services/data_upload_service.py:295-383 | no Name column, or no rate column, is a column error; otherwise the first rate column, and status and plan when present, are checked, and the sheet is kept exactly when every row is clean |
| UploadChecks.Stats | api/services/data_upload_service.py:385-403 | the valid and invalid rows add up to the total, duplicates are 0, and the columns are those of the sheet |
| UploadChecks.DirtyCount | api/services/data_upload_service.py:389-392 | the number of failing rows never exceeds the number of rows |
| UploadChecks.ErrorRowsCount | api/services/data_upload_service.py:389-399 | the rows with errors are exactly as many as the failing rows, and their numbers lie within the sheet |
| UploadChecks.StatsCountFailingRows | api/services/data_upload_service.py:385-403 | for a sheet whose key columns exist, the invalid count is the number of failing rows and the valid count is never negative |
| UploadChecks.ColumnErrorCountsNoRows | api/services/data_upload_service.py:389-399 | a column error names no row, so every row is reported valid although no data is kept |
| Grouping.Keys | ui/data_management.py:119 | `groupby` keys: each name that occurs, once, in ascending order |
| Grouping.SumOverExtend | ui/data_management.py:119 | one more row adds its value to its own group only |
| Grouping.SumOverCovering | ui/data_management.py:119 | the sums of distinct groups that cover every name add up to the total |
| Grouping.GroupsConserve | ui/data_management.py:119 | grouping conserves the total: the group sums add up to the sum of the column |
| Grouping.SumForAbsent | ui/data_management.py:119 | a name that does not occur gets nothing |
| Grouping.SumForAppend | pages/data_management.py:205-212 | group sums over two lists of rows put together add up |
| HourEditing.HourColumns | ui/data_management.py:96-106 | "Reg Hours" in preference to "Regular Hours", then "OT Hours" and "DT Hours", each exactly when present, and nothing else |
| HourEditing.NamedOnly | ui/data_management.py:119 | `groupby` drops rows without a text name |
| HourEditing.ColumnValues | ui/data_management.py:115-116 | each hour cell read as a number, unreadable as 0 |
| HourEditing.Sums | ui/data_management.py:119 | an employee's unrounded sum of each hour column over their rows |
| HourEditing.LineOf | ui/data_management.py:119-126 | an employee's line holds each column's sum to within half a cent, in whole cents, and the rounded total of the sums |
| HourEditing.EmployeeHourTotals | ui/data_management.py:91-132 | no Employee Name column or no hour column is an error with its message, and a name that is neither text nor missing fails the aggregation; otherwise one line per distinct name in ascending order, each summing that employee's rows |
| HourEditing.ColumnValuesTotal | ui/data_management.py:116 | the numbers read from a column add up to the column total |
| HourEditing.HourTotalsConserve | ui/data_management.py:115-122 | per column, the employees' unrounded sums add up to the column total over the named rows |
| HourEditing.OverrideOf | ui/data_management.py:172-191 | an edited row's override takes regular hours from "Reg Hours" or else "Regular Hours", overtime and double time when present and 0 otherwise; its total is the three together and it is stamped with the saving time |
| HourEditing.LastRowOf | ui/data_management.py:172-185 | the last edited row for a name, and none exactly when no row has it |
| HourEditing.SaveOverrides | ui/data_management.py:163-191 | every edited employee's override is replaced by the one its last row makes, other overrides are kept, and balanced overrides stay balanced |
| ImportScreen.CategoryOf | pages/data_management.py:1591-1600 | the first matching rule decides the kind: timesheet words first, then revenue words, then staff words, else other |
| ImportScreen.OfCategory | pages/data_management.py:1591-1600 | a kind's list holds exactly the uploaded files of that kind |
| ImportScreen.Categorize | pages/data_management.py:1587-1602 | each of the four lists holds the files of its kind, and together they are the uploads rearranged |
| ImportScreen.PartitionCounts | pages/data_management.py:1587-1602 | every file lands in exactly one list |
| ImportScreen.OfCategoryCount | pages/data_management.py:1591-1600 | a file occurs in its own kind's list as often as it was uploaded and in no other |
| ImportScreen.Combined | pages/data_management.py:208-215 | an employee's combined row sums each kind over their rows in all files, and its total is the three together |
| ImportScreen.CombineTimesheets | pages/data_management.py:199-218 | nothing without processed files, a single file as it is, and several files summed per employee name in ascending order |
| ImportScreen.CombiningConserves | pages/data_management.py:205-215 | combining several timesheets loses and invents no hours of any kind |
| ImportScreen.Inactive | pages/data_management.py:1770 | exactly the inactive employees the calculator holds |
| ImportScreen.ZeroRevenue | pages/data_management.py:1772 | exactly the units without revenue the calculator holds |
| ImportScreen.ItemsForDeletion | pages/data_management.py:1765-1775 | the inactive employees, the units without revenue, or nothing for any other target |
| ImportScreen.FieldOf | pages/data_management.py:1717-1721 | each of the three rate-type choices names its rate, and nothing else names one |
| ImportScreen.SetRate | pages/data_management.py:1725 | the named rate takes the new value and nothing else of the unit changes |
| ImportScreen.ApplyBulkSingleRate | pages/data_management.py:1713-1732 | for a known rate type every unit gets the new rate and keeps everything else, and the count is the number of units; an unknown type changes nothing |
| ImportScreen.BulkRateIdempotent | pages/data_management.py:1713-1732 | setting the same rate twice is setting it once |
| Export.ReadEscaped | utils/export.py:28-31 | a field written between quotes, with its quotes doubled, reads back as it was |
| Export.ReadUnquoted | utils/export.py:28-31 | a field written without quotes reads back as it was |
| Export.FieldReads | utils/export.py:28-31 | every field as the CSV writer writes it (quoted exactly when it holds a separator, quote or line break, or stands alone empty) reads back as it was |
| Export.RecordReads | utils/export.py:28-31 | a written record reads back as the same fields |
| Export.CsvReads | utils/export.py:28-33 | written records read back as the same records, provided none of them is empty |
| Export.Values | utils/export.py:31 | one field per header column, with missing keys and None values empty |
| Export.Records | utils/export.py:31 | one record per row, each the row's values under the header |
| Export.ExportToCsv | utils/export.py:23-33 | no rows give the empty text; a row with a key outside the first row's keys is an error; otherwise the text reads back as the header followed by every row's values |
| Export.PayrollRowOf | utils/export.py:107-125 | a helper is paid no commission, earnings are labor cost plus commission, the row carries the period and is marked approved |
| Export.PayrollExport | utils/export.py:102-127 | one payroll row per item, in order |
| Export.PayrollConserves | utils/export.py:102-127 | the payroll pays out exactly every item's labor cost plus the commission of every item that is not a helper |
| Export.CommissionPercent | utils/export.py:194 | with positive revenue the percentage times revenue is 100 times the commission, at most 100 exactly when commission does not exceed revenue; 0 otherwise |
| Export.UnitReport | utils/export.py:181-197 | one row per unit, in order, with the category defaulting to N/A and the commission percentage of its revenue |
| ApiSchemas.ToDecimal | api/models/business_unit.py:19-25 | `Decimal(str(v))`: a number is itself, text only when it reads as a decimal, and None is refused |
| ApiSchemas.LengthErrors | api/models/business_unit.py:30-31 | a text field has no error exactly when its length lies in the bounds, and says whether it is too short or too long |
| ApiSchemas.OptionalLengthErrors | api/models/business_unit.py:31-44 | an optional text field has no error exactly when it is absent or of a length within the bounds |
| ApiSchemas.RequiredLengthErrors | api/models/business_unit.py:30 | a required text field is an error when absent, and otherwise has no error exactly when its length is within the bounds |
| ApiSchemas.RateErrors | api/models/business_unit.py:15-25 | a rate has no error exactly when it is absent or reads as a number in [0, 100]; unreadable is a not-a-number error |
| ApiSchemas.MakeRates | api/models/business_unit.py:13-25 | rates are accepted exactly when each of the three passes, default to 0 when absent, and then lie in [0, 100]; otherwise one to three errors |
| ApiSchemas.UnitErrors | api/models/business_unit.py:28-33 | a unit has no error exactly when its name has 1 to 100 characters and any description at most 255 |
| ApiSchemas.MakeUnitSpec | api/models/business_unit.py:28-38 | a unit is accepted exactly when name and description pass; it keeps them, is enabled unless told otherwise, has zero rates unless given and is not auto-added unless told so |
| ApiSchemas.CheckUnitUpdate | api/models/business_unit.py:41-46 | an update is accepted unchanged exactly when any given name has 1 to 100 characters and any given description at most 255 |
| ApiSchemas.StatusText | api/models/employee.py:14-19 | every status's text reads back as that status |
| ApiSchemas.ParseStatus | api/models/employee.py:14-19 | exactly the four status texts name a status |
| ApiSchemas.PlanText | api/models/employee.py:22-25 | every plan's text reads back as that plan |
| ApiSchemas.ParsePlan | api/models/employee.py:22-25 | exactly the two plan texts name a plan |
| ApiSchemas.HourlyRateErrors | api/models/employee.py:34-47 | the hourly rate has no error exactly when it is given and reads as a number of at least 0; missing and unreadable each have their own error |
| ApiSchemas.ChoiceErrors | api/models/employee.py:35-39 | a choice field has no error exactly when it is absent or names a choice |
| ApiSchemas.MakeEmployee | api/models/employee.py:28-55 | an employee is accepted exactly when the name has 1 to 100 characters, any department at most 50, the rate reads as at least 0, and any status and plan are known; defaults are Active and Hourly + Commission |
| ApiSchemas.UpdateRateErrors | api/models/employee.py:64-75 | an update's rate has no error exactly when it is absent, None, or reads as at least 0 |
| ApiSchemas.MakeEmployeeChange | api/models/employee.py:58-78 | an update is accepted exactly when any given id has at most 50 characters, name 1 to 100, department at most 50, and rate, status and plan pass; absent fields stay absent |
| EmployeeService.ToApi | api/services/employee_service.py:70-83 | a row becomes an API employee exactly when the employee schema accepts it (name of 1-100 characters, department of at most 50, a present non-negative rate), and the record then carries the row's fields with the plan defaulting to "Hourly + Commission" |
| EmployeeService.Matching | api/services/employee_service.py:46-61 | the kept positions are exactly the rows matching the status, containing the department text, and containing the search text in the name or the employee id (case ignored; empty filters keep everything), in increasing table order |
| EmployeeService.Page | api/services/employee_service.py:68-85 | the page holds one API record per requested position, in order, and fails exactly when one of those rows is refused by the schema |
| EmployeeService.PageAt | api/services/employee_service.py:65-66 | the window starting at `skip` holds at most `limit` positions, namely the matches from `skip` on, and is empty past the end |
| EmployeeService.GetEmployees | api/services/employee_service.py:28-85 | an empty table answers an empty list and 0; otherwise the total is the number of matching rows and the list is the page of them, failing exactly when a row on the page is refused |
| EmployeeService.AllAcceptableAppend | api/services/employee_service.py:68-83 | the rows at two position lists are all acceptable exactly when the rows at their concatenation are |
| EmployeeService.PageAppend | api/services/employee_service.py:68-85 | the page of two concatenated position lists succeeds exactly when both pages do, and is their concatenation |
| EmployeeService.PagesCompose | api/services/employee_service.py:63-66 | the page of `a` entries at `skip` followed by the page of `b` entries at `skip + a` is the page of `a + b` entries at `skip`, and one succeeds exactly when both others do |
| EmployeeService.GetEmployeeById | api/services/employee_service.py:87-112 | an id past the end, or before the start when counted from the end, answers nothing; otherwise the record of the row at that position (negative ids counting from the end) with the id as given, failing exactly when that row is refused |
| EmployeeService.CountStatus | api/services/employee_service.py:237 | the number of employees with a status never exceeds the number of rows |
| EmployeeService.CountPlan | api/services/employee_service.py:240 | the number of employees on a plan never exceeds the number of rows |
| EmployeeService.RateCount | api/services/employee_service.py:243-244 | the number of rates present never exceeds the number of rows |
| EmployeeService.Summary | api/services/employee_service.py:217-255 | the totals are the row count and the per-status and per-plan counts; an empty table gives a mean rate of 0, no rate at all gives no number, and otherwise the mean rate is on cents and within half a cent of the mean of the present rates |
| EmployeeService.SummaryPartitions | api/services/employee_service.py:236-254 | the four status counts add up to the total, and the two plan counts add up to at most the total |
| UnitService.UnitOf | api/services/business_unit_service.py:35-52 | a saved unit becomes an API record exactly when its rates lie in [0, 100], its name has 1-100 characters and its description at most 255; the record then has missing rates as 0, the description defaulting to "", enabled to true and auto-added to false |
| UnitService.BusinessUnits | api/services/business_unit_service.py:24-54 | the listing has one unit per saved name in the settings' order with its position as its id and rates within range, and fails exactly when some saved unit is refused |
| UnitService.UnitById | api/services/business_unit_service.py:56-63 | an id at or past the end answers nothing, an id before the start (counting from the end) is an index error, and otherwise the answer is the unit listed at that position counted as Python does; a refused listing fails |
| UnitService.IndexOf | api/services/business_unit_service.py:99-101 | the position found holds the searched name |
| UnitService.FindByName | api/services/business_unit_service.py:65-72 | the unit found is a listed unit with that name, and nothing is found exactly when no listed unit has it |
| UnitService.CreateOrUpdate | api/services/business_unit_service.py:74-104 | the configuration is saved under the unit's name, a new name at the end and a known name in its place, and the answer is the unit listed under that name with the given rates, flags and description ("" when absent), failing exactly when the new listing is refused |
| UnitService.Applied | api/services/business_unit_service.py:128-137 | an update replaces the description, the enabled flag and all three rates exactly when they are given and leaves the rest, including the auto-added flag, as saved |
| UnitService.UpdatedSettings | api/services/business_unit_service.py:119-141 | the updated configuration ends up under the new name when the update renames the unit and under the old one otherwise, a renamed unit's old name is gone, and every other saved unit is untouched |
| UnitService.UpdateUnitAsWritten | api/services/business_unit_service.py:106-144 | an id at or past the end is refused as not found and one before the start as an index error, with the settings unchanged |
| UnitService.UpdateUnit | api/services/business_unit_service.py:106-144 | saves the same settings as the code, with the same refusals, but answers with the updated unit itself: under its new name, with the applied rates and enabled flag |
| UnitService.RenameAnswersWithAnotherUnit | api/services/business_unit_service.py:123-126 | renaming any unit but the last one to a new name makes the code answer with a unit of a different name, while the corrected update answers with the renamed unit |
| UnitService.EnabledCount | api/services/business_unit_service.py:180 | the number of enabled units never exceeds the number of units |
| UnitService.AutoAddedCount | api/services/business_unit_service.py:182 | the number of auto-added units never exceeds the number of units |
| UnitService.Average | api/services/business_unit_service.py:186-188 | the average times the number of units is the total of that rate, and it is 0 with no units |
| UnitService.Stats | api/services/business_unit_service.py:163-199 | the counts split the units into enabled and disabled and into auto-added and manual, both non-negative, and the averages are the mean rates |
| UnitService.RateTotalBounds | api/services/business_unit_service.py:186-188 | with every rate a percentage, the total of a rate lies between 0 and 100 times the number of units |
| UnitService.AverageIsPercent | api/services/business_unit_service.py:186-188 | with every rate a percentage, each average rate is itself between 0 and 100 |
| UnitService.GetStats | api/services/business_unit_service.py:163-199 | the statistics exist exactly when the listing does, count every saved unit, and every average lies between 0 and 100 |
| SetupEmployees.IdsOf | ui/company_setup.py:715 | the id column lists every employee's id, in table order |
| SetupEmployees.AddEmployee | ui/company_setup.py:707-738 | an id already in the table is refused with "Employee ID … already exists" and nothing changes; any other record is appended after the unchanged rows, which keeps the ids distinct |
| SetupEmployees.NumberOfAutoId | ui/company_setup.py:568 | the number written into an AUTO id is read back from it |
| SetupEmployees.AutoIdInjective | ui/company_setup.py:568-573 | different numbers give different AUTO ids |
| SetupEmployees.NumberBound | ui/company_setup.py:571-573 | every AUTO id in the list carries a number below the bound, so the search for a free id ends |
| SetupEmployees.BoundCovers | ui/company_setup.py:571-573 | a number whose AUTO id is taken lies below the bound |
| SetupEmployees.FirstFree | ui/company_setup.py:571-573 | the search stops at a number from the start on whose AUTO id is free, and every number it skipped was taken |
| SetupEmployees.AutoIdsAsWritten | ui/company_setup.py:564-573 | the code hands out one id per configured name, none of them an id the table already held |
| SetupEmployees.AsWrittenId | ui/company_setup.py:568-573 | the id the code gives one new employee is not in the table beforehand |
| SetupEmployees.AutoIds | ui/company_setup.py:564-573 | the intended ids: one per configured name, none already held and no two alike |
| SetupEmployees.FreshNumbersAgree | ui/company_setup.py:568-573 | when none of AUTO001 up to the batch size is taken, the code's ids and the intended ids agree and are AUTO001, AUTO002, … in order |
| SetupEmployees.FreshNumbersAsWritten | ui/company_setup.py:568 | when those ids are free, the code gives the k-th new employee AUTO(k+1) |
| SetupEmployees.FirstFreeAt | ui/company_setup.py:571 | the search starting at a free number stops there |
| SetupEmployees.FreshNumbersInOrder | ui/company_setup.py:568 | when those ids are free, the intended search gives the k-th new employee AUTO(k+1) |
| SetupEmployees.FreshStep | ui/company_setup.py:568-573 | after AUTO001 to AUTO(n-1) are handed out, a free AUTO(n) is the next id |
| SetupEmployees.DuplicateAutoIdsAsWritten | ui/company_setup.py:568-573 | with AUTO001 taken, the code gives two new employees AUTO002 each, while the intended search gives AUTO002 and AUTO003 |
| SetupEmployees.FirstIdsAsWritten | ui/company_setup.py:568-573 | with AUTO001 taken, the code gives the first two new employees AUTO002 each |
| SetupEmployees.FirstIdsCorrected | ui/company_setup.py:568-573 | with AUTO001 taken, the intended search gives AUTO002 and then AUTO003 |
| SetupEmployees.AutoOneTwoThree | ui/company_setup.py:568 | numbers 1, 2 and 3 are written AUTO001, AUTO002 and AUTO003 |
| SetupEmployees.SmallAutoId | ui/company_setup.py:568 | a one-digit number is written with two leading zeros |
| SetupEmployees.Added | ui/company_setup.py:575-587 | each new record holds its name's configuration under its id, and is commission-eligible exactly when its status is not "Excluded from Payroll" |
| SetupEmployees.AppendKeepsDistinct | ui/company_setup.py:596-600 | appending new rows whose ids are distinct among themselves and from the table keeps all ids distinct |
| SetupEmployees.AutoAdd | ui/company_setup.py:556-600 | the existing rows stay, one row per configured name follows in order with its name and status, it is commission-eligible exactly when the status is not "Excluded from Payroll", and distinct ids stay distinct |
| SetupUnits.Initials | ui/company_setup.py:915 | the initials are the upper-cased first letters of the first three words, one per word |
| SetupUnits.FirstLetters | ui/company_setup.py:915 | at most three letters, the upper-cased first letter of each of the first words |
| SetupUnits.BaseCode | ui/company_setup.py:915-917 | a code of at most three characters, empty only for an empty name: the initials when the name has a word, and otherwise its first three characters upper-cased |
| SetupUnits.SuffixOfCandidate | ui/company_setup.py:923 | the counter appended to a code is read back from the candidate |
| SetupUnits.SuffixBound | ui/company_setup.py:922-924 | every taken code carries a counter below the bound, so the search for a free code ends |
| SetupUnits.FreeCounter | ui/company_setup.py:920-924 | the search stops at a counter whose candidate is free, and every candidate it skipped was taken |
| SetupUnits.CodeCounter | ui/company_setup.py:919-924 | the code chosen is the first candidate, the base code itself first, that is not taken |
| SetupUnits.UniqueCode | ui/company_setup.py:919-924 | a new unit's code is not taken, starts with the base code, and is the base code itself whenever that is free |
| SetupUnits.CodesFor | ui/company_setup.py:913-936 | the rebuilt table has one code per unit name, in order, each holding the name and its saved rates (5, 7.5, 7.5 where missing) under a code that starts with the name's base code |
| SetupUnits.CodesStep | ui/company_setup.py:919-936 | adding the last name under a fresh code keeps every earlier entry and files the new one correctly |
| SetupUnits.RatesOnLoad | ui/company_setup.py:909-936 | an empty code table is rebuilt from non-empty settings with one entry per saved unit carrying its name and rates; otherwise the table is left exactly as it was |
| SetupUnits.DeletedCodes | ui/company_setup.py:1038-1041 | a code is listed for deletion exactly when some edited row with that code has its Delete box ticked |
| SetupUnits.LastEdit | ui/company_setup.py:1050-1059 | a row is found exactly when some unticked row edits that code, and it is such a row |
| SetupUnits.ApplyEdits | ui/company_setup.py:1050-1059 | the table keeps its codes and order; each code takes the name and rates of the last unticked row that edits it, and codes no row edits keep their entry |
| SetupUnits.Names | ui/company_setup.py:1065-1066 | the names of the listed codes, one per code, in order |
| SetupUnits.SyncOver | ui/company_setup.py:1064-1073 | the settings afterwards hold the old names plus every unit name of the table; each of these gets the rates of the last unit with that name, switched on, and every other setting is unchanged |
| SetupUnits.SyncStep | ui/company_setup.py:1064-1073 | saving the last unit keeps what the earlier units saved, except under its own name |
| SetupUnits.GoneNames | ui/company_setup.py:1075-1079 | a name is listed exactly when one of the deleted codes is still in the looked-up table under that name |
| SetupUnits.UpdateBusinessUnitsAsWritten | ui/company_setup.py:1035-1087 | the code's update keeps the code table and the settings well formed |
| SetupUnits.UpdateBusinessUnits | ui/company_setup.py:1035-1087 | the count is the number of ticked rows; the table keeps exactly the unticked codes it had, each carrying its last edit; and a deleted unit's name leaves the settings |
| SetupUnits.DeletedUnitsLingerAsWritten | ui/company_setup.py:1044-1079 | a deleted unit whose name was saved keeps its settings entry under the code as written, and loses it under the intended update |
| SetupUnits.NoGoneNames | ui/company_setup.py:1075-1077 | deleted codes that the table no longer holds name no unit, which is why the code's clean-up removes nothing |

## Left out

- The Streamlit screens themselves: widgets, layout, toasts, `st.rerun` and the display-only functions. The model keeps the values the screens compute and save.
- Persistence of every kind is left out, because the model passes state in and hands it back:
  - the session store, the SQLite database and the API's session adapter;
  - the JSON files of the approval workflow and the notification queue;
  - configuration files;
  - the backup and restore of the company-setup screen.
- Logging, and the notifications that operations send as a side effect.
- The clock and random identifiers are parameters. Fields that only stamp the current time are not modelled: `created_at`, `updated_at`, `created_date`, the generated hire dates, and the user recorded in `created_by`.
- Passwords, sign-in and the user table (utils/auth.py:11-110, 125-170). Only the role check and `require_auth`'s decision are modelled.
- Other exports: `export_to_json`, `export_to_excel`, `generate_executive_summary`, `generate_employee_detail_report`, `generate_commission_breakdown` and `create_pdf_report`. They are formatting over third-party writers.
- These employee-service writes go through the API's session adapter, which is not part of this model: `create_employee`, `update_employee`, `delete_employee`, `create_employees_bulk` and the lookup `get_employee_by_employee_id`.
- The unit service's `delete_business_unit`, for the same reason.
- Floating point is modelled as exact rational arithmetic. Python floats and `Decimal` values are `real`. Decimal's 28-digit context precision is not modelled.
- Python's date range limit (year 9999) is not modelled. Dates are unbounded.
- Number reading: exponent forms, `inf`, `nan`, thousands separators and currency signs are read as "not a number". They are not modelled as the values pandas or `Decimal` would give.
- Distinctions the model does not draw:
  - `InvalidOperation` is not distinguished from other conversion errors;
  - a `None` hourly rate reaches the schema as a non-number.
- `pandas.Series.str.contains` is modelled as a case-insensitive substring test rather than a regular-expression search.
- Case mapping and whitespace cover ASCII only. This includes the upper-casing of a unit name's initials.
- Missing columns in a few places:
  - A sheet without an 'Hourly Rate' column is not modelled for the employee listing.
  - Employee statuses are typed values rather than free text.
  - `hire_date` is not modelled.
- The hour editor's NaN cells are not modelled. Neither are names that are numbers rather than text, which the model reports as an aggregation error.
- The text rendering `str()` gives to non-text values in CSV output is not modelled. Values reach the CSV writer as text already.
- A settings entry present with the value `None` is treated like a missing entry.
- The status summary messages of the timesheet auto-add are not modelled.
- The file-size estimate of an upload error and the value echoed in an error are not modelled.
- The API routers' bounds on `skip` and `limit` are taken as natural numbers (api/routers/employees.py).
- The service validates setup errors over an unordered set. The model lists its messages in order of first mention (`PerJobEngine.ValidateSetup`).
- ApprovalWorkflow.ApprovalMetrics: the mean approval time and the rate are not rounded to one decimal as `round(x, 1)` does.
- Validators.ValidateHourlyRates: the warnings name the employee but leave out the rate's digits, because decimal formatting is not modelled.
- Validators.ValidateSplit: the message for a bad total leaves out the total's digits, for the same reason.
- Export.ExportToCsv: the error for extra fields does not list the offending field names.
- ApiEngine.RateFor: reads the override flags under the keys the company-setup screen saves (`use_lead_override`, `use_sales_override`, `use_work_override`), not the `use_<type>_override` keys api/services/commission_service.py:450-451 looks up. This is the corrected half of the override finding below; with the keys as written an override saved from the screen never applies (CommissionSettings.OverrideRateAsWritten).
- ApiEngine.KindDetails, ApiEngine.UnitDetails, ApiEngine.RevenueCommissions, ApiEngine.EmployeeCalculation and ApiEngine.CalculateCommissions use ApiEngine.RateFor, so they state the corrected override lookup too.
- ReportsEngine.PayDetails: the commissions of each pay detail are ReportsEngine.EmployeeCommissions, where a blank revenue cell counts as 0. As written (ui/reports.py:1069-1092) one blank cell makes the commission and every sum built on it NaN; that half is ReportsEngine.EmployeeCommissionsAsWritten in the findings below, and NaN pay details are not modelled.
- ReportsEngine.PayDetailFor and ReportsEngine.PayDetailsOf: the same corrected commissions, for the same reason.
- ReportsEngine.HourlyRate: a blank 'Hourly Rate' cell is an error in the model. `float(nan)` (ui/reports.py:981) gives NaN, which the report would carry into NaN hourly and final pay; NaN pay details are not modelled.
- TimesheetProcessor.RowHours and the processing built on it take the reading of hours as a parameter: `corrected` false is `convert_time_to_decimal` as written, true the corrected reading of the finding below.
- Tables.ToDate: reads dates and ISO `YYYY-MM-DD` text only. `pd.to_datetime` also reads other text layouts such as `MM/DD/YYYY` and month names, and reads a number as nanoseconds after 1970; the model reads all of these as no date.
- ApiEngine.DateFiltered: inherits this, so a revenue sheet whose dates use those layouts keeps every row in the model, while the program filters it by date (or, for numeric dates, drops every row dated 1970).
- ApiEngine.JobOf: passes the 'Job Number' cell through as it is. The detail's `job_number` field is `Optional[str]` (api/models/commission.py:48), so a numeric or blank job number is converted to text or refused, depending on the pydantic version; that version is not part of this model.
- Tables.CellText: a number with a fraction prints as "" rather than as Python's `str` of the float (for example "7.5"), because float printing is not modelled.
- Tables.WholeNumberText: the read-back of a printed whole number is proved only for non-negative numbers. For a negative one, the leading minus sign would have to be carried through the strip and the split on '.', and that proof is not part of this model.

## Findings

| source | as written | input that shows it | evidently intended | confidence | as-written member | corrected member |
|---|---|---|---|---|---|---|
| ui/company_setup.py:1206-1208 | the override screen saves the flags `use_lead_override`, `use_sales_override` and `use_work_override`, but the engine reads `use_lead_gen_override`, `use_sold_by_override` and `use_work_done_override` (api/services/commission_service.py:450-451) | a lead-generation override of 10% for Tech1 on Electrical, whose default is 5% | the saved override rate is used: 10% | high; not executed | CommissionSettings.OverrideRateAsWritten, CommissionSettings.SavedOverridesIgnoredAsWritten | CommissionSettings.OverrideRate, CommissionSettings.SavedOverridesApplied |
| ui/company_setup.py:289-318 | a semi-monthly run that starts between the 2nd and the 14th ends its first period on the 14th, then jumps to the 1st of the next month | start 2024-01-05, semi-monthly, 2 periods: no period contains 2024-01-15 | the second half starts on the 15th, so the periods tile the calendar | high; not executed | UiPayPeriods.GenerateAsWritten, UiPayPeriods.SemiMonthlyGapAsWritten | UiPayPeriods.Generate |
| ui/company_setup.py:298-302 | a monthly period's pay date adds 5 days to the 1st of the next month | start 2024-01-01, monthly: paid on 2024-02-06 | paid on the 5th of the next month | medium; not executed | UiPayPeriods.MonthlyPayAsWritten | UiPayPeriods.MonthlyPayOnFifth |
| ui/utils.py:50-53 | every `.xls` file must begin with the ZIP signature `PK` | "report.xls" beginning with the compound-document signature of a legacy workbook | legacy `.xls` workbooks, which are compound documents, are accepted | medium; not executed | UiUtils.ContentCheckAsWritten, UiUtils.LegacyWorkbookRefusedAsWritten | UiUtils.ContentCheck |
| ui/reports.py:1069-1092 | unreadable revenue is summed without `fillna(0)`, so one blank cell makes the commission NaN | Ann generated two HVAC leads at 10%, with revenue 100 and a blank | the blank counts as 0, as in the service's engine: commission 10 | high; not executed | ReportsEngine.EmployeeCommissionsAsWritten, ReportsEngine.BlankRevenuePoisonsTotal | ReportsEngine.EmployeeCommissions, ReportsEngine.AsWrittenAgreesWhenReadable |
| models/calculator.py:75-91 | a timesheet row without a name reads as the text "nan" and creates an employee called "nan" | one timesheet row with no name and 8 regular hours | the nameless row is skipped | high; not executed | CalculatorImports.NamelessRowAsWritten | CalculatorImports.NamelessRowCorrected |
| models/calculator.py:131-144 | revenue groups that land on the same unit overwrite each other's revenue instead of adding up | 100 under "Unassigned" and 50 with no unit: the calculator keeps 50 | both groups add to the unit: 150, the sheet's total | high; not executed | CalculatorImports.UnassignedOverwrittenAsWritten | CalculatorImports.ImportRevenue, CalculatorImports.RevenueImportConserves |
| utils/validators.py:224-226 | the length cap cuts the name before the extension to 200 minus the extension's length, which is negative for a long extension | "a." followed by 200 x's gives a 201-character name | a sanitised name is at most 200 characters | medium; not executed | Validators.SanitizeFilenameAsWritten, Validators.LongExtensionAsWritten | Validators.SanitizeFilename |
| utils/timesheet_processor.py:91-99 | the "Xh Ym" pattern matches inside a decimal text, so the digits after the point are read as the whole hours | "7.5 hours" reads as 5.00 | 7.50 hours | high; not executed | TimeValues.ConvertAsWritten, TimeValues.SevenAndAHalfHours, TimesheetProcessor.DecimalHoursCell | TimeValues.Convert, TimeValues.DecimalHoursRead |
| api/services/business_unit_service.py:123-144 | after a rename moves the unit to the end of the settings, the update answers with whatever unit now holds the old id | settings {A, B}: renaming unit 0 from A to C answers with B | the answer is the updated unit C | high; not executed | UnitService.UpdateUnitAsWritten, UnitService.RenameAnswersWithAnotherUnit | UnitService.UpdateUnit |
| ui/company_setup.py:568-573 | the id search only avoids ids that were in the table before, not those handed out in the same batch | existing ["AUTO001"] and two new employees: both get AUTO002 | distinct ids: AUTO002 and AUTO003 | high; not executed | SetupEmployees.AutoIdsAsWritten, SetupEmployees.DuplicateAutoIdsAsWritten | SetupEmployees.AutoIds, SetupEmployees.AutoAdd |
| ui/company_setup.py:1040-1078 | the settings clean-up looks deleted codes up in the code table they were already deleted from, which is the same dict as the session's (ui/utils.py:13-15), so it finds nothing | codes {"HS": "HVAC Service"}, settings {"HVAC Service"}, HS ticked for deletion: "HVAC Service" stays in the settings | the deleted unit's name leaves the settings | high; not executed | SetupUnits.UpdateBusinessUnitsAsWritten, SetupUnits.DeletedUnitsLingerAsWritten | SetupUnits.UpdateBusinessUnits |
| pages/analytics_dashboard.py:891 | the overtime ratio divides the `Decimal` sum of overtime and double-time hours by a `float`, which raises `TypeError` | one employee with one regular hour | the share of overtime and double-time hours in all hours: 0% | high; not executed | Analytics.PerformanceMetricsAsWritten, Analytics.OneBookedHourRaises | Analytics.PerformanceMetrics, Analytics.OvertimeRatioBounded |
