/** The business-unit table of the company setup screen.  It keeps a
    dict from a short unit code to the unit's name and three commission
    rates, next to the commission settings, a dict from unit name to its
    saved configuration.  When the code table is empty it is rebuilt from
    the settings; edits to the table, deletions included, are written back
    into the settings. */
module SetupUnits {
  import opened Wrappers
  import Text
  import Dicts
  import UnitService

  type Settings = Dicts.Dict<UnitService.UnitConfig>

  datatype UnitRates = UnitRates(leadGen: real, sales: real, workDone: real)

  /** One unit of the code table. */
  datatype RateEntry = RateEntry(name: string, code: string, rates: UnitRates)

  type CodeTable = Dicts.Dict<RateEntry>

  /** One row of the edited table; `delete` is the row's Delete tick. */
  datatype EditedRow = EditedRow(code: string, name: string, leadGen: real, sales: real, workDone: real,
                                 delete: bool)

  /** The code table and the commission settings together. */
  datatype Screen = Screen(rates: CodeTable, settings: Settings)

  // ---------------------------------------------------------------- codes

  /** The upper-cased first letter of a word. */
  function Initial(w: string): char
    requires Text.IsWord(w)
  {
    Text.UpperChar(w[0])
  }

  /** The upper-cased first letters of the first three words. */
  function Initials(name: string): (c: string)
    ensures |c| == if |Text.Words(name)| < 3 then |Text.Words(name)| else 3
    ensures forall i :: 0 <= i < |c| ==> c[i] == Initial(Text.Words(name)[i])
  {
    FirstLetters(Text.Words(name))
  }

  function FirstLetters(ws: seq<string>): (c: string)
    requires forall i :: 0 <= i < |ws| ==> Text.IsWord(ws[i])
    ensures |c| == if |ws| < 3 then |ws| else 3
    ensures forall i :: 0 <= i < |c| ==> c[i] == Initial(ws[i])
  {
    var n := if |ws| < 3 then |ws| else 3;
    seq(n, i requires 0 <= i < n => Initial(ws[i]))
  }

  /** The code a unit name suggests: its initials, or the first three
      characters upper-cased when the name has no word. */
  function BaseCode(name: string): (code: string)
    ensures |code| <= 3
    ensures code == "" <==> name == ""
    ensures Text.Words(name) != [] ==> code == Initials(name)
    ensures Text.Words(name) == [] ==> code == Text.Upper(name[..if |name| < 3 then |name| else 3])
  {
    var c := Initials(name);
    if c != "" then c else Text.Upper(name[..if |name| < 3 then |name| else 3])
  }

  /** The codes tried in turn: the base code, then the base code followed
      by 1, 2, 3, ... */
  function Candidate(base: string, c: nat): string {
    if c == 0 then base else base + Text.NatToString(c)
  }

  /** The counter a candidate of `base` carries, 0 for any other code. */
  function SuffixValue(x: string, base: string): nat {
    var t := if |base| <= |x| then x[|base|..] else "";
    if |x| > |base| && x[..|base|] == base && forall i :: 0 <= i < |t| ==> Text.IsDigit(t[i]) then Text.DigitsValue(t)
    else 0
  }

  lemma SuffixOfCandidate(base: string, c: nat)
    requires c >= 1
    ensures SuffixValue(Candidate(base, c), base) == c
  {
    var x := Candidate(base, c);
    assert x[|base|..] == Text.NatToString(c);
    assert x[..|base|] == base;
    Text.DigitsOfNat(c);
  }

  /** One more than the largest counter carried by a taken code. */
  function SuffixBound(taken: seq<string>, base: string): (b: nat)
    ensures forall i :: 0 <= i < |taken| ==> SuffixValue(taken[i], base) < b
  {
    if |taken| == 0 then 0
    else
      var rest := SuffixBound(taken[1..], base);
      assert forall i :: 1 <= i < |taken| ==> taken[i] == taken[1..][i - 1];
      if SuffixValue(taken[0], base) < rest then rest else SuffixValue(taken[0], base) + 1
  }

  /** The `while code in rates: code = original + str(counter)` search,
      from counter `c` on. */
  function FreeCounter(taken: seq<string>, base: string, c: nat): (m: nat)
    requires c >= 1
    ensures c <= m && Candidate(base, m) !in taken
    ensures forall k :: c <= k < m ==> Candidate(base, k) in taken
    decreases SuffixBound(taken, base) - c
  {
    if Candidate(base, c) in taken then
      SuffixOfCandidate(base, c);
      FreeCounter(taken, base, c + 1)
    else c
  }

  /** The counter of the code a new unit gets: the first candidate that is
      not taken. */
  function CodeCounter(taken: seq<string>, base: string): (m: nat)
    ensures Candidate(base, m) !in taken
    ensures forall k :: 0 <= k < m ==> Candidate(base, k) in taken
  {
    if base !in taken then 0 else FreeCounter(taken, base, 1)
  }

  /** The code a new unit gets: a free code that starts with the base code,
      and the base code itself whenever that is free. */
  function UniqueCode(taken: seq<string>, base: string): (code: string)
    ensures code !in taken
    ensures Text.StartsWith(code, base)
    ensures base !in taken ==> code == base
  {
    Candidate(base, CodeCounter(taken, base))
  }

  // ------------------------------------------------------- load from settings

  /** The rates a saved configuration contributes, with the screen's
      defaults of 5, 7.5 and 7.5 percent. */
  function DefaultRates(c: UnitService.UnitConfig): UnitRates {
    UnitRates(c.leadGen.GetOr(5.0), c.soldBy.GetOr(7.5), c.workDone.GetOr(7.5))
  }

  /** The code table built from the settings' unit names in order: each
      unit under a code of its own that starts with its base code. */
  function CodesFor(names: seq<string>, settings: map<string, UnitService.UnitConfig>): (r: CodeTable)
    requires forall i :: 0 <= i < |names| ==> names[i] in settings
    ensures r.Valid() && |r.order| == |names|
    ensures forall i :: 0 <= i < |names| ==>
              r.order[i] in r.entries
              && r.entries[r.order[i]] == RateEntry(names[i], r.order[i], DefaultRates(settings[names[i]]))
              && Text.StartsWith(r.order[i], BaseCode(names[i]))
    decreases |names|
  {
    if |names| == 0 then Dicts.EmptyDict()
    else
      var last := |names| - 1;
      var prior := CodesFor(names[..last], settings);
      var code := UniqueCode(prior.order, BaseCode(names[last]));
      var r := prior.Put(code, RateEntry(names[last], code, DefaultRates(settings[names[last]])));
      CodesStep(names, settings, prior, code, r);
      r
  }

  /** The step of `CodesFor` that adds the last name under a new code. */
  lemma CodesStep(names: seq<string>, settings: map<string, UnitService.UnitConfig>, prior: CodeTable, code: string,
                  r: CodeTable)
    requires |names| > 0 && forall i :: 0 <= i < |names| ==> names[i] in settings
    requires prior.Valid() && |prior.order| == |names| - 1
    requires forall i :: 0 <= i < |names| - 1 ==>
               prior.order[i] in prior.entries
               && prior.entries[prior.order[i]] == RateEntry(names[i], prior.order[i], DefaultRates(settings[names[i]]))
               && Text.StartsWith(prior.order[i], BaseCode(names[i]))
    requires code !in prior.order && Text.StartsWith(code, BaseCode(names[|names| - 1]))
    requires r.order == prior.order + [code]
    requires r.entries == prior.entries[code := RateEntry(names[|names| - 1], code, DefaultRates(settings[names[|names| - 1]]))]
    ensures |r.order| == |names|
    ensures forall i :: 0 <= i < |names| ==>
              r.order[i] in r.entries
              && r.entries[r.order[i]] == RateEntry(names[i], r.order[i], DefaultRates(settings[names[i]]))
              && Text.StartsWith(r.order[i], BaseCode(names[i]))
  {
    forall i | 0 <= i < |names|
      ensures r.order[i] in r.entries
              && r.entries[r.order[i]] == RateEntry(names[i], r.order[i], DefaultRates(settings[names[i]]))
              && Text.StartsWith(r.order[i], BaseCode(names[i]))
    {
      if i < |names| - 1 {
        assert r.order[i] == prior.order[i];
        assert prior.order[i] != code;
      }
    }
  }

  /** On loading the screen an empty code table is rebuilt from non-empty
      settings; otherwise the table is left alone. */
  function RatesOnLoad(rates: CodeTable, settings: Settings): (r: CodeTable)
    requires rates.Valid() && settings.Valid()
    ensures r.Valid()
    ensures rates.order != [] || settings.order == [] ==> r == rates
    ensures rates.order == [] && settings.order != [] ==>
              |r.order| == |settings.order|
              && forall i :: 0 <= i < |settings.order| ==>
                   r.order[i] in r.entries && r.entries[r.order[i]].name == settings.order[i]
                   && r.entries[r.order[i]].rates == DefaultRates(settings.entries[settings.order[i]])
  {
    if rates.order == [] && settings.order != [] then CodesFor(settings.order, settings.entries)
    else rates
  }

  // ------------------------------------------------------------- edits

  /** The codes of the rows ticked for deletion. */
  function DeletedCodes(edited: seq<EditedRow>): (codes: seq<string>)
    ensures forall c :: c in codes <==> exists i :: 0 <= i < |edited| && edited[i].delete && edited[i].code == c
    decreases |edited|
  {
    if |edited| == 0 then []
    else
      var rest := DeletedCodes(edited[1..]);
      assert forall i :: 1 <= i < |edited| ==> edited[i] == edited[1..][i - 1];
      if edited[0].delete then [edited[0].code] + rest else rest
  }

  /** The last row that is not ticked for deletion and edits `code`. */
  function LastEdit(edited: seq<EditedRow>, code: string): (r: Option<EditedRow>)
    ensures r.Some? <==> exists i :: 0 <= i < |edited| && !edited[i].delete && edited[i].code == code
    ensures r.Some? ==> r.value in edited && !r.value.delete && r.value.code == code
    decreases |edited|
  {
    if |edited| == 0 then None
    else
      var last := |edited| - 1;
      if !edited[last].delete && edited[last].code == code then Some(edited[last])
      else
        var front := edited[..last];
        var prior := LastEdit(front, code);
        assert forall i :: 0 <= i < last ==> front[i] == edited[i];
        assert forall e :: e in front ==> e in edited;
        prior
  }

  function Edited(e: RateEntry, row: EditedRow): RateEntry {
    e.(name := row.name, rates := UnitRates(row.leadGen, row.sales, row.workDone))
  }

  /** Writing the kept rows back: a code still in the table takes the name
      and rates of the last row that edits it; codes no row edits, and rows
      whose code is gone, change nothing. */
  function ApplyEdits(rates: CodeTable, edited: seq<EditedRow>): (r: CodeTable)
    requires rates.Valid()
    ensures r.Valid() && r.order == rates.order && r.entries.Keys == rates.entries.Keys
    ensures forall k :: k in r.entries ==>
              r.entries[k] == match LastEdit(edited, k)
                              case None => rates.entries[k]
                              case Some(row) => Edited(rates.entries[k], row)
    decreases |edited|
  {
    if |edited| == 0 then rates
    else
      var last := |edited| - 1;
      var prior := ApplyEdits(rates, edited[..last]);
      var row := edited[last];
      if !row.delete && row.code in prior.entries then prior.Put(row.code, Edited(prior.entries[row.code], row))
      else prior
  }

  /** What the screen saves for a unit: its three rates, switched on, and
      nothing else. */
  function SettingsOf(rates: UnitRates): UnitService.UnitConfig {
    UnitService.UnitConfig(Some(rates.leadGen), Some(rates.sales), Some(rates.workDone), None, Some(true), None)
  }

  /** The unit names of the listed codes, in order. */
  function Names(codes: seq<string>, entries: map<string, RateEntry>): (ns: seq<string>)
    requires forall c :: c in codes ==> c in entries
    ensures |ns| == |codes|
    ensures forall i :: 0 <= i < |codes| ==> ns[i] == entries[codes[i]].name
  {
    seq(|codes|, i requires 0 <= i < |codes| => entries[codes[i]].name)
  }

  /** No later name of the list equals the one at `i`. */
  predicate LastOf(ns: seq<string>, i: nat)
    requires i < |ns|
  {
    forall j :: i < j < |ns| ==> ns[j] != ns[i]
  }

  /** Copying every unit of the code table into the settings, in table
      order: each unit name gets the rates of the last unit with that name;
      other settings stay as they were. */
  function SyncOver(settings: Settings, codes: seq<string>, entries: map<string, RateEntry>): (r: Settings)
    requires settings.Valid()
    requires forall c :: c in codes ==> c in entries
    ensures r.Valid()
    ensures forall n :: n in r.entries <==> n in settings.entries || n in Names(codes, entries)
    ensures forall i :: 0 <= i < |codes| && LastOf(Names(codes, entries), i) ==>
              r.entries[Names(codes, entries)[i]] == SettingsOf(entries[codes[i]].rates)
    ensures forall n :: n in settings.entries && n !in Names(codes, entries) ==> r.entries[n] == settings.entries[n]
    decreases |codes|
  {
    if |codes| == 0 then settings
    else
      var last := |codes| - 1;
      var front := codes[..last];
      assert forall c :: c in front ==> c in codes;
      var prior := SyncOver(settings, front, entries);
      var e := entries[codes[last]];
      var r := prior.Put(e.name, SettingsOf(e.rates));
      SyncStep(settings, codes, entries, prior, r);
      r
  }

  /** The step of `SyncOver` that puts the last code's unit. */
  lemma SyncStep(settings: Settings, codes: seq<string>, entries: map<string, RateEntry>, prior: Settings, r: Settings)
    requires settings.Valid() && prior.Valid() && |codes| > 0
    requires forall c :: c in codes ==> c in entries
    requires var front := codes[..|codes| - 1];
             (forall c :: c in front ==> c in entries)
             && (forall n :: n in prior.entries <==> n in settings.entries || n in Names(front, entries))
             && (forall i :: 0 <= i < |front| && LastOf(Names(front, entries), i) ==>
                   prior.entries[Names(front, entries)[i]] == SettingsOf(entries[front[i]].rates))
             && (forall n :: n in settings.entries && n !in Names(front, entries) ==> prior.entries[n] == settings.entries[n])
    requires r.entries == prior.entries[entries[codes[|codes| - 1]].name := SettingsOf(entries[codes[|codes| - 1]].rates)]
    ensures forall n :: n in r.entries <==> n in settings.entries || n in Names(codes, entries)
    ensures forall i :: 0 <= i < |codes| && LastOf(Names(codes, entries), i) ==>
              r.entries[Names(codes, entries)[i]] == SettingsOf(entries[codes[i]].rates)
    ensures forall n :: n in settings.entries && n !in Names(codes, entries) ==> r.entries[n] == settings.entries[n]
  {
    var last := |codes| - 1;
    var front := codes[..last];
    var ns := Names(codes, entries);
    var fs := Names(front, entries);
    assert ns == fs + [ns[last]];
    forall i | 0 <= i < |codes| && LastOf(ns, i)
      ensures r.entries[ns[i]] == SettingsOf(entries[codes[i]].rates)
    {
      if i < last {
        assert ns[last] != ns[i];
        assert LastOf(fs, i);
        assert front[i] == codes[i];
      }
    }
  }

  /** The unit names of the listed codes that `lookup` holds. */
  function GoneNames(codes: seq<string>, lookup: CodeTable): (names: seq<string>)
    ensures forall n :: n in names <==>
              exists i :: 0 <= i < |codes| && codes[i] in lookup.entries && lookup.entries[codes[i]].name == n
    decreases |codes|
  {
    if |codes| == 0 then []
    else
      var rest := GoneNames(codes[1..], lookup);
      assert forall i :: 1 <= i < |codes| ==> codes[i] == codes[1..][i - 1];
      if codes[0] in lookup.entries then [lookup.entries[codes[0]].name] + rest else rest
  }

  /** `update_business_units` as written: the clean-up of the settings looks
      the deleted codes up in the code table they have already been deleted
      from, so it never finds them. */
  function UpdateBusinessUnitsAsWritten(s: Screen, edited: seq<EditedRow>): (r: (Screen, nat))
    requires s.rates.Valid() && s.settings.Valid()
    ensures r.0.rates.Valid() && r.0.settings.Valid()
  {
    var gone := DeletedCodes(edited);
    var updated := ApplyEdits(Dicts.RemoveAll(s.rates, gone), edited);
    var synced := SyncOver(s.settings, updated.order, updated.entries);
    (Screen(updated, Dicts.RemoveAll(synced, GoneNames(gone, updated))), |gone|)
  }

  /** `update_business_units` as intended: the ticked codes leave the code
      table, the kept rows are written into it and copied to the settings,
      and the deleted units' names leave the settings.  The count is that of
      the ticked rows. */
  function UpdateBusinessUnits(s: Screen, edited: seq<EditedRow>): (r: (Screen, nat))
    requires s.rates.Valid() && s.settings.Valid()
    ensures r.0.rates.Valid() && r.0.settings.Valid()
    ensures r.1 == |DeletedCodes(edited)|
    ensures forall k :: k in r.0.rates.entries <==>
              k in s.rates.entries && !exists i :: 0 <= i < |edited| && edited[i].delete && edited[i].code == k
    ensures forall k :: k in r.0.rates.entries ==>
              r.0.rates.entries[k] == match LastEdit(edited, k)
                                      case None => s.rates.entries[k]
                                      case Some(row) => Edited(s.rates.entries[k], row)
    ensures forall i :: 0 <= i < |edited| && edited[i].delete && edited[i].code in s.rates.entries ==>
              s.rates.entries[edited[i].code].name !in r.0.settings.entries
  {
    var gone := DeletedCodes(edited);
    var kept := Dicts.RemoveAll(s.rates, gone);
    var updated := ApplyEdits(kept, edited);
    var synced := SyncOver(s.settings, updated.order, updated.entries);
    var names := GoneNames(gone, s.rates);
    var settings := Dicts.RemoveAll(synced, names);
    assert forall i :: 0 <= i < |edited| && edited[i].delete && edited[i].code in s.rates.entries ==>
             s.rates.entries[edited[i].code].name in names by {
      forall i | 0 <= i < |edited| && edited[i].delete && edited[i].code in s.rates.entries
        ensures s.rates.entries[edited[i].code].name in names
      {
        assert edited[i].code in gone;
        var j :| 0 <= j < |gone| && gone[j] == edited[i].code;
      }
    }
    (Screen(updated, settings), |gone|)
  }

  /** The defect of the code as written: a deleted unit's name stays in the
      settings (and keeps being offered for commissions), where the intended
      update drops it. */
  lemma DeletedUnitsLingerAsWritten(s: Screen, edited: seq<EditedRow>, i: nat)
    requires s.rates.Valid() && s.settings.Valid()
    requires i < |edited| && edited[i].delete && edited[i].code in s.rates.entries
    requires s.rates.entries[edited[i].code].name in s.settings.entries
    ensures s.rates.entries[edited[i].code].name in UpdateBusinessUnitsAsWritten(s, edited).0.settings.entries
    ensures s.rates.entries[edited[i].code].name !in UpdateBusinessUnits(s, edited).0.settings.entries
  {
    var gone := DeletedCodes(edited);
    var updated := ApplyEdits(Dicts.RemoveAll(s.rates, gone), edited);
    assert forall j :: 0 <= j < |gone| ==> gone[j] !in updated.entries;
    NoGoneNames(gone, updated);
  }

  /** Codes the table no longer holds name nothing. */
  lemma {:induction false} NoGoneNames(codes: seq<string>, lookup: CodeTable)
    requires forall j :: 0 <= j < |codes| ==> codes[j] !in lookup.entries
    ensures GoneNames(codes, lookup) == []
    decreases |codes|
  {
    if |codes| > 0 {
      NoGoneNames(codes[1..], lookup);
    }
  }
}
