/** The business-unit endpoints of the web API over the saved unit
    settings, a dict from unit name to its configuration.  A unit's id is
    its position in that dict. */
module UnitService {
  import opened Wrappers
  import Text
  import Dicts
  import ApiSchemas

  /** A saved configuration; every key may be missing. */
  datatype UnitConfig = UnitConfig(leadGen: Option<real>, soldBy: Option<real>, workDone: Option<real>,
                                   description: Option<string>, enabled: Option<bool>, autoAdded: Option<bool>)

  type Settings = Dicts.Dict<UnitConfig>

  datatype ApiUnit = ApiUnit(id: int, name: string, description: string, enabled: bool, rates: ApiSchemas.Rates,
                             autoAdded: bool)

  const InvalidUnit := "business unit record failed validation"
  const IndexOutOfRange := "list index out of range"

  /** The saved rates, 0 where missing. */
  function RatesOf(c: UnitConfig): ApiSchemas.Rates {
    ApiSchemas.Rates(c.leadGen.GetOr(0.0), c.soldBy.GetOr(0.0), c.workDone.GetOr(0.0))
  }

  /** A saved unit the schema accepts: rates in [0, 100], a name of 1-100
      characters and a description of at most 255. */
  predicate Acceptable(name: string, c: UnitConfig) {
    ApiSchemas.RatesInRange(RatesOf(c)) && 1 <= |name| <= 100 && |c.description.GetOr("")| <= 255
  }

  /** The API record of one saved unit: the description defaults to "",
      enabled to true, auto-added to false. */
  function UnitOf(name: string, c: UnitConfig, id: int): (r: Result<ApiUnit>)
    ensures r.Ok? <==> Acceptable(name, c)
    ensures r.Ok? ==> r.value == ApiUnit(id, name, c.description.GetOr(""), c.enabled.GetOr(true), RatesOf(c),
                                         c.autoAdded.GetOr(false))
  {
    var rates := ApiSchemas.MakeRates(Some(ApiSchemas.Number(c.leadGen.GetOr(0.0))),
                                      Some(ApiSchemas.Number(c.soldBy.GetOr(0.0))),
                                      Some(ApiSchemas.Number(c.workDone.GetOr(0.0))));
    match rates
    case Invalid(_) => Err(InvalidUnit)
    case Valid(rs) =>
      match ApiSchemas.MakeUnitSpec(Some(name), Some(c.description.GetOr("")), c.enabled, Some(rs), c.autoAdded)
      case Invalid(_) => Err(InvalidUnit)
      case Valid(spec) => Ok(ApiUnit(id, spec.name, spec.description.value, spec.enabled, spec.rates, spec.autoAdded))
  }

  predicate AllAcceptable(s: Settings)
    requires s.Valid()
  {
    forall i :: 0 <= i < |s.order| ==> Acceptable(s.order[i], s.entries[s.order[i]])
  }

  /** The unit listed at position `i`. */
  predicate ListedAt(u: ApiUnit, s: Settings, i: nat)
    requires s.Valid() && i < |s.order|
  {
    var c := s.entries[s.order[i]];
    u == ApiUnit(i, s.order[i], c.description.GetOr(""), c.enabled.GetOr(true), RatesOf(c), c.autoAdded.GetOr(false))
  }

  /** `get_business_units`: one unit per saved name, in the dict's order,
      its position as its id; a saved unit the schema refuses fails the
      listing. */
  function BusinessUnits(s: Settings): (r: Result<seq<ApiUnit>>)
    requires s.Valid()
    ensures r.Ok? <==> AllAcceptable(s)
    ensures r.Ok? ==> |r.value| == |s.order| && forall i :: 0 <= i < |s.order| ==> ListedAt(r.value[i], s, i)
    ensures r.Ok? ==> forall i :: 0 <= i < |r.value| ==> ApiSchemas.RatesInRange(r.value[i].rates)
  {
    if AllAcceptable(s) then
      Ok(seq(|s.order|, i requires 0 <= i < |s.order| => UnitOf(s.order[i], s.entries[s.order[i]], i).value))
    else Err(InvalidUnit)
  }

  /** Python's list index: a negative position counts from the end. */
  function Position(id: int, n: nat): int {
    if id < 0 then n + id else id
  }

  /** `get_business_unit_by_id`: `None` past the end, the unit counted
      from the end for a negative id, and an index error before the
      start. */
  function UnitById(s: Settings, id: int): (r: Result<Option<ApiUnit>>)
    requires s.Valid()
    ensures BusinessUnits(s).Err? ==> r.Err?
    ensures BusinessUnits(s).Ok? ==> (r == Ok(None) <==> id >= |s.order|)
    ensures BusinessUnits(s).Ok? ==> (r.Err? <==> id < -|s.order|)
    ensures r.Ok? && r.value.Some? ==>
              0 <= Position(id, |s.order|) < |s.order| && ListedAt(r.value.value, s, Position(id, |s.order|))
  {
    match BusinessUnits(s)
    case Err(e) => Err(e)
    case Ok(units) =>
      if id >= |units| then Ok(None)
      else if id < -|units| then Err(IndexOutOfRange)
      else Ok(Some(units[Position(id, |units|)]))
  }

  // ---- create or update ------------------------------------------------------------------

  /** The configuration saved for a created unit: a missing description is
      saved as "". */
  function ConfigOf(spec: ApiSchemas.UnitSpec): UnitConfig {
    UnitConfig(Some(spec.rates.leadGen), Some(spec.rates.soldBy), Some(spec.rates.workDone),
               Some(spec.description.GetOr("")), Some(spec.enabled), Some(spec.autoAdded))
  }

  /** The position of a listed name. */
  function IndexOf(order: seq<string>, name: string): (i: nat)
    requires name in order
    ensures i < |order| && order[i] == name
  {
    if order[0] == name then 0 else 1 + IndexOf(order[1..], name)
  }

  /** The first unit with the name, if any. */
  function FindByName(units: seq<ApiUnit>, name: string): (r: Option<ApiUnit>)
    ensures r.Some? ==> r.value in units && r.value.name == name
    ensures r.None? <==> forall i :: 0 <= i < |units| ==> units[i].name != name
  {
    if units == [] then None
    else if units[0].name == name then Some(units[0])
    else
      var rest := FindByName(units[1..], name);
      assert forall i :: 1 <= i < |units| ==> units[i] == units[1..][i - 1];
      rest
  }

  /** `create_or_update_business_unit`: the configuration is saved under
      the unit's name (a new name goes to the end, a known name keeps its
      place) and the saved unit is returned.  The "failed to create"
      outcome cannot happen: only a refused record fails. */
  function CreateOrUpdate(s: Settings, spec: ApiSchemas.UnitSpec): (r: (Settings, Result<ApiUnit>))
    requires s.Valid()
    ensures r.0.Valid() && r.0.entries == s.entries[spec.name := ConfigOf(spec)]
    ensures spec.name in s.entries ==> r.0.order == s.order
    ensures spec.name !in s.entries ==> r.0.order == s.order + [spec.name]
    ensures r.1.Ok? <==> AllAcceptable(r.0)
    ensures r.1.Ok? ==>
              var u := r.1.value;
              0 <= u.id < |r.0.order| && r.0.order[u.id] == spec.name
              && u.name == spec.name && u.rates == spec.rates && u.enabled == spec.enabled
              && u.autoAdded == spec.autoAdded && u.description == spec.description.GetOr("")
  {
    var s2 := s.Put(spec.name, ConfigOf(spec));
    match BusinessUnits(s2)
    case Err(e) => (s2, Err(e))
    case Ok(units) =>
      FoundListed(s2, units, spec.name);
      match FindByName(units, spec.name)
      case None => (s2, Err("Failed to create business unit"))
      case Some(u) => (s2, Ok(u))
  }

  /** A saved name is found in the listing, as the unit listed at its own
      position. */
  lemma FoundListed(s: Settings, units: seq<ApiUnit>, name: string)
    requires s.Valid() && name in s.entries && BusinessUnits(s) == Ok(units)
    ensures FindByName(units, name).Some?
    ensures var u := FindByName(units, name).value;
      0 <= u.id < |s.order| && s.order[u.id] == name && ListedAt(u, s, u.id)
  {
    var i := IndexOf(s.order, name);
    assert units[i].name == name;
    var u := FindByName(units, name).value;
    var j :| 0 <= j < |units| && units[j] == u;
    assert ListedAt(units[j], s, j);
  }

  // ---- update ----------------------------------------------------------------------------

  /** A configuration with the given fields of an update applied. */
  function Applied(c: UnitConfig, upd: ApiSchemas.UnitUpdate): (r: UnitConfig)
    ensures r.description == (if upd.description.Some? then upd.description else c.description)
    ensures r.enabled == (if upd.enabled.Some? then upd.enabled else c.enabled)
    ensures upd.rates.Some? ==> RatesOf(r) == upd.rates.value
    ensures upd.rates.None? ==> RatesOf(r) == RatesOf(c)
    ensures r.autoAdded == c.autoAdded
  {
    var rated := if upd.rates.None? then c
                 else c.(leadGen := Some(upd.rates.value.leadGen), soldBy := Some(upd.rates.value.soldBy),
                         workDone := Some(upd.rates.value.workDone));
    rated.(description := if upd.description.Some? then upd.description else c.description,
           enabled := if upd.enabled.Some? then upd.enabled else c.enabled)
  }

  predicate Renames(name: string, upd: ApiSchemas.UnitUpdate) {
    upd.name.Some? && upd.name.value != name
  }

  /** The saved settings after updating the unit `name`: a rename takes
      the configuration out and puts it back under the new name, which
      places it last; then the given fields are applied. */
  function UpdatedSettings(s: Settings, name: string, upd: ApiSchemas.UnitUpdate): (r: (Settings, string))
    requires s.Valid() && name in s.entries
    ensures r.0.Valid()
    ensures r.1 == (if Renames(name, upd) then upd.name.value else name)
    ensures r.1 in r.0.entries && r.0.entries[r.1] == Applied(s.entries[name], upd)
    ensures Renames(name, upd) ==> name !in r.0.entries
    ensures forall k :: k != name && k != r.1 ==> (k in r.0.entries <==> k in s.entries)
    ensures forall k :: k != name && k != r.1 && k in s.entries ==> r.0.entries[k] == s.entries[k]
  {
    var c := Applied(s.entries[name], upd);
    if Renames(name, upd) then (s.Remove(name).Put(upd.name.value, c), upd.name.value)
    else (s.Put(name, c), name)
  }

  function NotFound(id: nat): string {
    "Business unit with ID " + Text.NatToString(id) + " not found"
  }

  /** `update_business_unit` as written: after saving, it answers with
      whatever unit now sits at the old id. */
  function UpdateUnitAsWritten(s: Settings, id: int, upd: ApiSchemas.UnitUpdate): (r: (Settings, Result<Option<ApiUnit>>))
    requires s.Valid()
    ensures r.0.Valid()
    ensures BusinessUnits(s).Ok? && id >= |s.order| ==> r == (s, Err(NotFound(id)))
    ensures BusinessUnits(s).Ok? && id < -|s.order| ==> r == (s, Err(IndexOutOfRange))
  {
    match BusinessUnits(s)
    case Err(e) => (s, Err(e))
    case Ok(units) =>
      if id >= |units| then (s, Err(NotFound(id)))
      else if id < -|units| then (s, Err(IndexOutOfRange))
      else
        var u := UpdatedSettings(s, units[Position(id, |units|)].name, upd);
        (u.0, UnitById(u.0, id))
  }

  /** `update_business_unit` answering with the unit it updated, found
      under its new name. */
  function UpdateUnit(s: Settings, id: int, upd: ApiSchemas.UnitUpdate): (r: (Settings, Result<Option<ApiUnit>>))
    requires s.Valid()
    ensures r.0 == UpdateUnitAsWritten(s, id, upd).0
    ensures BusinessUnits(s).Ok? && id >= |s.order| ==> r == (s, Err(NotFound(id)))
    ensures BusinessUnits(s).Ok? && id < -|s.order| ==> r == (s, Err(IndexOutOfRange))
    ensures BusinessUnits(s).Ok? && -|s.order| <= id < |s.order| ==>
              var prior := s.order[Position(id, |s.order|)];
              var key := if Renames(prior, upd) then upd.name.value else prior;
              (r.1.Ok? <==> AllAcceptable(r.0))
              && (r.1.Ok? ==> r.1.value.Some? && r.1.value.value.name == key
                              && r.1.value.value.rates == RatesOf(Applied(s.entries[prior], upd))
                              && r.1.value.value.enabled == (if upd.enabled.Some? then upd.enabled.value
                                                             else s.entries[prior].enabled.GetOr(true)))
  {
    match BusinessUnits(s)
    case Err(e) => (s, Err(e))
    case Ok(units) =>
      if id >= |units| then (s, Err(NotFound(id)))
      else if id < -|units| then (s, Err(IndexOutOfRange))
      else
        var u := UpdatedSettings(s, units[Position(id, |units|)].name, upd);
        match BusinessUnits(u.0)
        case Err(e) => (u.0, Err(e))
        case Ok(after) =>
          var i := IndexOf(u.0.order, u.1);
          (u.0, Ok(Some(after[i])))
  }

  /** Renaming any unit but the last one answers with a different unit:
      the renamed unit has moved to the end, and another one now holds
      its id. */
  lemma RenameAnswersWithAnotherUnit(s: Settings, id: nat, upd: ApiSchemas.UnitUpdate)
    requires s.Valid() && BusinessUnits(s).Ok?
    requires id + 1 < |s.order|
    requires upd.name.Some? && upd.name.value !in s.entries
    ensures var r := UpdateUnitAsWritten(s, id, upd).1;
            r.Ok? && r.value.Some? ==> r.value.value.name != upd.name.value
    ensures var r := UpdateUnit(s, id, upd).1;
            r.Ok? ==> r.value.Some? && r.value.value.name == upd.name.value
  {
    var prior := s.order[id];
    assert BusinessUnits(s).value[id].name == prior;
    var removed := s.Remove(prior);
    Dicts.WithoutOne(s.order, prior);
    var renamed := UpdatedSettings(s, prior, upd).0;
    assert renamed.order == removed.order + [upd.name.value];
    assert renamed.order[|renamed.order| - 1] == upd.name.value;
    assert renamed.order[id] != upd.name.value;
  }

  // ---- statistics ------------------------------------------------------------------------

  datatype UnitStats = UnitStats(total: nat, enabled: nat, disabled: int, autoAdded: nat, manual: int,
                                 avgLeadGen: real, avgSoldBy: real, avgWorkDone: real)

  datatype RateKind = LeadGen | SoldBy | WorkDone

  function RateOf(r: ApiSchemas.Rates, k: RateKind): real {
    match k
    case LeadGen => r.leadGen
    case SoldBy => r.soldBy
    case WorkDone => r.workDone
  }

  function RateTotal(units: seq<ApiUnit>, k: RateKind): real {
    if units == [] then 0.0 else RateTotal(units[..|units| - 1], k) + RateOf(units[|units| - 1].rates, k)
  }

  function EnabledCount(units: seq<ApiUnit>): (n: nat)
    ensures n <= |units|
  {
    if units == [] then 0 else EnabledCount(units[..|units| - 1]) + (if units[|units| - 1].enabled then 1 else 0)
  }

  function AutoAddedCount(units: seq<ApiUnit>): (n: nat)
    ensures n <= |units|
  {
    if units == [] then 0 else AutoAddedCount(units[..|units| - 1]) + (if units[|units| - 1].autoAdded then 1 else 0)
  }

  function Average(units: seq<ApiUnit>, k: RateKind): (a: real)
    ensures units != [] ==> a * |units| as real == RateTotal(units, k)
    ensures units == [] ==> a == 0.0
  {
    if units == [] then 0.0 else RateTotal(units, k) / |units| as real
  }

  /** `get_business_unit_stats` over a listing: the counts split the
      units into enabled and disabled, auto-added and manual; the averages
      are the mean rates, 0 with no units. */
  function Stats(units: seq<ApiUnit>): (r: UnitStats)
    ensures r.total == |units| && r.enabled + r.disabled == r.total && r.autoAdded + r.manual == r.total
    ensures r.disabled >= 0 && r.manual >= 0
    ensures r.enabled == EnabledCount(units) && r.autoAdded == AutoAddedCount(units)
    ensures r.avgLeadGen == Average(units, LeadGen) && r.avgSoldBy == Average(units, SoldBy)
            && r.avgWorkDone == Average(units, WorkDone)
  {
    UnitStats(|units|, EnabledCount(units), |units| - EnabledCount(units), AutoAddedCount(units),
              |units| - AutoAddedCount(units), Average(units, LeadGen), Average(units, SoldBy),
              Average(units, WorkDone))
  }

  predicate AllInRange(units: seq<ApiUnit>) {
    forall i :: 0 <= i < |units| ==> ApiSchemas.RatesInRange(units[i].rates)
  }

  lemma {:induction false} RateTotalBounds(units: seq<ApiUnit>, k: RateKind)
    requires AllInRange(units)
    ensures 0.0 <= RateTotal(units, k) <= 100.0 * |units| as real
  {
    if units != [] {
      var n := |units| - 1;
      assert AllInRange(units[..n]) by {
        forall i | 0 <= i < n ensures ApiSchemas.RatesInRange(units[..n][i].rates) {
          assert units[..n][i] == units[i];
        }
      }
      RateTotalBounds(units[..n], k);
      assert ApiSchemas.RatesInRange(units[n].rates);
    }
  }

  lemma AverageIsPercent(units: seq<ApiUnit>, k: RateKind)
    requires AllInRange(units)
    ensures 0.0 <= Average(units, k) <= 100.0
  {
    if units != [] {
      RateTotalBounds(units, k);
      PercentOf(RateTotal(units, k), |units| as real);
    }
  }

  /** A total of at most 100 per item, over the item count. */
  lemma PercentOf(t: real, n: real)
    requires n > 0.0 && 0.0 <= t <= 100.0 * n
    ensures 0.0 <= t / n <= 100.0
  {
  }

  /** The statistics of the saved units; every average is a percentage. */
  function GetStats(s: Settings): (r: Result<UnitStats>)
    requires s.Valid()
    ensures r.Ok? <==> BusinessUnits(s).Ok?
    ensures r.Ok? ==> r.value == Stats(BusinessUnits(s).value) && r.value.total == |s.order|
    ensures r.Ok? ==> 0.0 <= r.value.avgLeadGen <= 100.0 && 0.0 <= r.value.avgSoldBy <= 100.0
                      && 0.0 <= r.value.avgWorkDone <= 100.0
  {
    match BusinessUnits(s)
    case Err(e) => Err(e)
    case Ok(units) =>
      AverageIsPercent(units, LeadGen);
      AverageIsPercent(units, SoldBy);
      AverageIsPercent(units, WorkDone);
      Ok(Stats(units))
  }
}
