/** The screens' shared helpers: upload checks, revenue-column detection,
    the revenue readings of a sheet, and the display of a pay period.

    Uploads are byte strings; a missing upload is `None`.  The upload
    check as written rejects every legacy `.xls` workbook, whose files
    begin with the compound-document signature and not with the ZIP one;
    the corrected check accepts either signature for `.xls`. */
module UiUtils {
  import opened Wrappers
  import Text
  import Tables
  import Decimals
  import Dates
  import ApiEngine
  import UiPayPeriods

  // ---- upload checks --------------------------------------------------

  const MaxUploadMb: real := 50.0
  const BytesPerMb: int := 1024 * 1024

  /** The size check: an upload larger than `maxMb` mebibytes is rejected;
      no upload passes. */
  function FileSizeOk(content: Option<seq<bv8>>, maxMb: real): (ok: bool)
    ensures content.None? ==> ok
    ensures content.Some? ==> (ok <==> |content.value| as real <= maxMb * BytesPerMb as real)
  {
    content.None? || !(|content.value| as real / BytesPerMb as real > maxMb)
  }

  datatype Verdict = Verdict(ok: bool, message: string)

  const EmptyFile := "File is empty"
  const BadExcel := "Invalid Excel file format"
  const ContentPassed := "File content validation passed"

  /** The first bytes of a ZIP archive, and so of an `.xlsx` workbook. */
  const ZipSignature: seq<bv8> := [0x50, 0x4B]
  /** The first bytes of a compound document, and so of an `.xls` workbook. */
  const CompoundSignature: seq<bv8> := [0xD0, 0xCF, 0x11, 0xE0, 0xA1, 0xB1, 0x1A, 0xE1]

  predicate BeginsWith(content: seq<bv8>, prefix: seq<bv8>) {
    |prefix| <= |content| && content[..|prefix|] == prefix
  }

  predicate IsExcelName(name: string) {
    Text.EndsWith(Text.Lower(name), ".xlsx") || Text.EndsWith(Text.Lower(name), ".xls")
  }

  predicate IsLegacyExcelName(name: string) {
    Text.EndsWith(Text.Lower(name), ".xls")
  }

  /** The content check as written: empty content is rejected, and a name
      ending in `.xlsx` or `.xls` needs the ZIP signature.  Text files pass
      because any bytes decode as Latin-1. */
  function ContentCheckAsWritten(name: string, content: Option<seq<bv8>>): (v: Verdict)
    ensures content.None? ==> v == Verdict(true, "")
    ensures content.Some? ==>
      (v.ok <==> |content.value| > 0 && (IsExcelName(name) ==> BeginsWith(content.value, ZipSignature)))
    ensures content.Some? && |content.value| == 0 ==> v.message == EmptyFile
    ensures content.Some? && |content.value| > 0 && !v.ok ==> v.message == BadExcel
  {
    match content
    case None => Verdict(true, "")
    case Some(bytes) =>
      if |bytes| == 0 then Verdict(false, EmptyFile)
      else if IsExcelName(name) && !BeginsWith(bytes, ZipSignature) then Verdict(false, BadExcel)
      else Verdict(true, ContentPassed)
  }

  /** The content check corrected: a legacy `.xls` workbook may also carry
      the compound-document signature. */
  function ContentCheck(name: string, content: Option<seq<bv8>>): (v: Verdict)
    ensures content.None? ==> v == Verdict(true, "")
    ensures content.Some? ==>
      (v.ok <==> |content.value| > 0
                 && (IsExcelName(name) && !IsLegacyExcelName(name) ==> BeginsWith(content.value, ZipSignature))
                 && (IsLegacyExcelName(name) ==>
                       BeginsWith(content.value, ZipSignature) || BeginsWith(content.value, CompoundSignature)))
    ensures content.Some? && |content.value| == 0 ==> v.message == EmptyFile
  {
    match content
    case None => Verdict(true, "")
    case Some(bytes) =>
      if |bytes| == 0 then Verdict(false, EmptyFile)
      else if IsLegacyExcelName(name) && !BeginsWith(bytes, ZipSignature) && !BeginsWith(bytes, CompoundSignature) then
        Verdict(false, BadExcel)
      else if IsExcelName(name) && !IsLegacyExcelName(name) && !BeginsWith(bytes, ZipSignature) then
        Verdict(false, BadExcel)
      else Verdict(true, ContentPassed)
  }

  /** Any non-empty upload not named as a workbook passes both checks, and
      the two checks agree on every name but `.xls`. */
  lemma ContentChecksAgree(name: string, content: Option<seq<bv8>>)
    requires !IsLegacyExcelName(name)
    ensures ContentCheck(name, content).ok == ContentCheckAsWritten(name, content).ok
    ensures content.Some? && |content.value| > 0 && !IsExcelName(name) ==> ContentCheck(name, content).ok
  {
  }

  /** A genuine legacy workbook is refused as written and accepted once
      corrected. */
  lemma LegacyWorkbookRefusedAsWritten()
    ensures !ContentCheckAsWritten("report.xls", Some(CompoundSignature)).ok
    ensures ContentCheck("report.xls", Some(CompoundSignature)).ok
  {
    LegacyName();
    CompoundIsNotZip();
  }

  /** `report.xls` names a legacy workbook. */
  lemma LegacyName()
    ensures IsExcelName("report.xls") && IsLegacyExcelName("report.xls")
  {
    assert Text.Lower("report.xls") == "report.xls";
  }

  /** A compound document does not begin with the ZIP signature. */
  lemma CompoundIsNotZip()
    ensures !BeginsWith(CompoundSignature, ZipSignature) && BeginsWith(CompoundSignature, CompoundSignature)
  {
    assert CompoundSignature[..2] != ZipSignature by {
      assert CompoundSignature[0] != ZipSignature[0];
    }
  }

  // ---- revenue column and readings -----------------------------------

  /** The revenue column names the screens look for, best first. */
  const PreferredRevenueColumns: seq<string> :=
    ["Jobs Total Revenue", "Total Revenue", "Revenue", "Job Revenue", "Total", "Amount", "Job Total"]

  /** The position of the first preferred name the sheet has. */
  function FirstPresent(prefs: seq<string>, cols: seq<string>): (r: Option<nat>)
    ensures r.None? <==> forall i :: 0 <= i < |prefs| ==> prefs[i] !in cols
    ensures r.Some? ==> r.value < |prefs| && prefs[r.value] in cols
                        && forall j :: 0 <= j < r.value ==> prefs[j] !in cols
    decreases |prefs|
  {
    if |prefs| == 0 then None
    else if prefs[0] in cols then Some(0)
    else
      match FirstPresent(prefs[1..], cols)
      case None => None
      case Some(k) => Some(k + 1)
  }

  predicate MentionsRevenue(col: string) {
    Text.Contains(Text.Lower(col), "revenue")
  }

  /** The position of the first column whose lowercased name contains
      "revenue". */
  function FirstMentioningRevenue(cols: seq<string>): (r: Option<nat>)
    ensures r.None? <==> forall i :: 0 <= i < |cols| ==> !MentionsRevenue(cols[i])
    ensures r.Some? ==> r.value < |cols| && MentionsRevenue(cols[r.value])
                        && forall j :: 0 <= j < r.value ==> !MentionsRevenue(cols[j])
    decreases |cols|
  {
    if |cols| == 0 then None
    else if MentionsRevenue(cols[0]) then Some(0)
    else
      match FirstMentioningRevenue(cols[1..])
      case None => None
      case Some(k) => Some(k + 1)
  }

  /** The screens' revenue column: none for an empty sheet, else the best
      preferred name present, else the first column mentioning revenue. */
  function RevenueColumn(f: Tables.Frame): (r: Option<string>)
    ensures Tables.Empty(f) ==> r.None?
    ensures r.Some? ==> r.value in f.columns
    ensures !Tables.Empty(f) && FirstPresent(PreferredRevenueColumns, f.columns).Some?
      ==> r == Some(PreferredRevenueColumns[FirstPresent(PreferredRevenueColumns, f.columns).value])
    ensures r.Some? && FirstPresent(PreferredRevenueColumns, f.columns).None? ==> MentionsRevenue(r.value)
    ensures r.None? <==> Tables.Empty(f)
                         || (FirstPresent(PreferredRevenueColumns, f.columns).None?
                             && forall i :: 0 <= i < |f.columns| ==> !MentionsRevenue(f.columns[i]))
  {
    if Tables.Empty(f) then None
    else
      match FirstPresent(PreferredRevenueColumns, f.columns)
      case Some(i) => Some(PreferredRevenueColumns[i])
      case None =>
        match FirstMentioningRevenue(f.columns)
        case Some(i) => Some(f.columns[i])
        case None => None
  }

  /** The lowercase of `c` contains `word` at position `i`. */
  lemma LowerContains(c: string, word: string, i: nat)
    requires i + |word| <= |c| && forall k :: 0 <= k < |word| ==> Text.LowerChar(c[i + k]) == word[k]
    ensures Text.Contains(Text.Lower(c), word)
  {
    var l := Text.Lower(c);
    assert l[i..i + |word|] == word;
    Text.ContainsAt(l, word, i);
  }

  /** Every preferred name is one the service's detection accepts too. */
  lemma PreferredAreRevenueLike(i: nat)
    requires i < |PreferredRevenueColumns|
    ensures ApiEngine.RevenueLike(PreferredRevenueColumns[i])
  {
    var c := PreferredRevenueColumns[i];
    var keywords := ApiEngine.RevenueKeywords;
    if i == 0 {
      LowerContains(c, keywords[0], 11);
    } else if i == 1 {
      LowerContains(c, keywords[0], 6);
    } else if i == 2 {
      LowerContains(c, keywords[0], 0);
    } else if i == 3 {
      LowerContains(c, keywords[0], 4);
    } else if i == 4 {
      LowerContains(c, keywords[1], 0);
    } else if i == 5 {
      LowerContains(c, keywords[2], 0);
    } else {
      LowerContains(c, keywords[1], 4);
    }
  }

  /** Whenever the screens find a revenue column, the service's engine
      finds one in the same sheet. */
  lemma ScreensColumnImpliesServiceColumn(f: Tables.Frame)
    requires RevenueColumn(f).Some?
    ensures ApiEngine.RevenueColumn(f.columns).Some?
  {
    var c := RevenueColumn(f).value;
    var k :| 0 <= k < |f.columns| && f.columns[k] == c;
    match FirstPresent(PreferredRevenueColumns, f.columns)
    case Some(i) =>
      PreferredAreRevenueLike(i);
    case None =>
      assert Text.Contains(Text.Lower(c), ApiEngine.RevenueKeywords[0]);
    assert ApiEngine.RevenueLike(f.columns[k]);
  }

  /** The two detections can pick different columns: with "Total" listed
      before "Jobs Total Revenue", the service takes "Total" and the
      screens "Jobs Total Revenue". */
  lemma RevenueColumnsDiffer(row: Tables.Row)
    ensures var f := Tables.Frame(["Total", "Jobs Total Revenue"], [row]);
      ApiEngine.RevenueColumn(f.columns) == Some("Total")
      && RevenueColumn(f) == Some("Jobs Total Revenue")
  {
    var cols := ["Total", "Jobs Total Revenue"];
    ServicePicksFirstRevenueLike(cols);
    ScreensPickPreferred(Tables.Frame(cols, [row]));
  }

  lemma ServicePicksFirstRevenueLike(cols: seq<string>)
    requires cols == ["Total", "Jobs Total Revenue"]
    ensures ApiEngine.RevenueColumn(cols) == Some("Total")
  {
    PreferredAreRevenueLike(4);
    assert PreferredRevenueColumns[4] == cols[0];
  }

  lemma ScreensPickPreferred(f: Tables.Frame)
    requires f.columns == ["Total", "Jobs Total Revenue"] && |f.rows| == 1
    ensures RevenueColumn(f) == Some("Jobs Total Revenue")
  {
    assert PreferredRevenueColumns[0] == f.columns[1];
    assert FirstPresent(PreferredRevenueColumns, f.columns) == Some(0);
  }

  /** The readings of a column, `to_numeric(errors='coerce').fillna(0)`. */
  function Readings(rows: seq<Tables.Row>, col: string): (r: seq<real>)
    ensures |r| == |rows|
    ensures forall i :: 0 <= i < |rows| ==> r[i] == Tables.NumOrZero(Tables.Get(rows[i], col))
    decreases |rows|
  {
    if |rows| == 0 then []
    else Readings(rows[..|rows| - 1], col) + [Tables.NumOrZero(Tables.Get(rows[|rows| - 1], col))]
  }

  /** The readings add up to the column total the engines use. */
  lemma {:induction false} ReadingsTotal(rows: seq<Tables.Row>, col: string)
    ensures Decimals.Sum(Readings(rows, col)) == Tables.ColumnTotal(rows, col)
    decreases |rows|
  {
    if |rows| > 0 {
      var n := |rows| - 1;
      ReadingsTotal(rows[..n], col);
      Decimals.SumAppend(Readings(rows[..n], col), [Tables.NumOrZero(Tables.Get(rows[n], col))]);
      assert Decimals.Sum([Tables.NumOrZero(Tables.Get(rows[n], col))]) == Tables.NumOrZero(Tables.Get(rows[n], col));
    }
  }

  /** The revenue readings of a sheet: none for an empty sheet or when the
      column (given, or detected when not given) is absent; otherwise one
      reading per row, unreadable values as 0. */
  function SafeRevenue(f: Tables.Frame, column: Option<string>): (r: seq<real>)
    ensures Tables.Empty(f) ==> r == []
    ensures var c := if column.Some? then column else RevenueColumn(f);
      !Tables.Empty(f) && c.Some? && c.value in f.columns ==> r == Readings(f.rows, c.value)
    ensures var c := if column.Some? then column else RevenueColumn(f);
      c.None? || c.value !in f.columns ==> r == []
  {
    if Tables.Empty(f) then []
    else
      var c := if column.Some? then column else RevenueColumn(f);
      if c.None? || c.value !in f.columns then [] else Readings(f.rows, c.value)
  }

  /** The total of the safe readings is the engines' column total. */
  lemma SafeRevenueTotal(f: Tables.Frame, col: string)
    requires !Tables.Empty(f) && col in f.columns
    ensures Decimals.Sum(SafeRevenue(f, Some(col))) == Tables.ColumnTotal(f.rows, col)
  {
    ReadingsTotal(f.rows, col);
  }

  // ---- pay-period display ----------------------------------------------

  const MonthAbbreviations: seq<string> :=
    ["Jan", "Feb", "Mar", "Apr", "May", "Jun", "Jul", "Aug", "Sep", "Oct", "Nov", "Dec"]

  lemma AbbreviationLength(m: int)
    requires 1 <= m <= 12
    ensures |MonthAbbreviations[m - 1]| == 3
  {
  }

  /** `%d`: a day of the month as two digits. */
  function TwoDigits(n: nat): (s: string)
    requires n < 100
    ensures |s| == 2 && Text.IsDigit(s[0]) && Text.IsDigit(s[1])
    ensures Text.DigitsValue(s) == n
  {
    var s := [('0' as int + n / 10) as char, ('0' as int + n % 10) as char];
    assert s[..1][..0] == [];
    assert Text.DigitsValue(s[..1]) == n / 10;
    s
  }

  /** `strftime('%b %d')`: the month's abbreviation and the two-digit day. */
  function DayStamp(d: Dates.Date): (s: string)
    requires Dates.Valid(d)
    ensures |s| == 6
  {
    AbbreviationLength(d.month);
    MonthAbbreviations[d.month - 1] + " " + TwoDigits(d.day)
  }

  /** Reading a day stamp back. */
  function ParseDayStamp(s: string): (r: Option<(int, int)>)
    ensures r.Some? ==> 1 <= r.value.0 <= 12
  {
    if |s| != 6 || s[3] != ' ' || !Text.IsDigit(s[4]) || !Text.IsDigit(s[5]) then None
    else
      match MonthNumber(s[..3])
      case None => None
      case Some(m) => Some((m, Text.DigitsValue(s[4..])))
  }

  function MonthNumber(abbr: string): (r: Option<int>)
    ensures r.Some? ==> 1 <= r.value <= 12 && MonthAbbreviations[r.value - 1] == abbr
    ensures r.None? ==> abbr !in MonthAbbreviations
  {
    if abbr == "Jan" then Some(1) else if abbr == "Feb" then Some(2) else if abbr == "Mar" then Some(3)
    else if abbr == "Apr" then Some(4) else if abbr == "May" then Some(5) else if abbr == "Jun" then Some(6)
    else if abbr == "Jul" then Some(7) else if abbr == "Aug" then Some(8) else if abbr == "Sep" then Some(9)
    else if abbr == "Oct" then Some(10) else if abbr == "Nov" then Some(11) else if abbr == "Dec" then Some(12)
    else None
  }

  /** A day stamp names its month and day unambiguously. */
  lemma DayStampRoundTrip(d: Dates.Date)
    requires Dates.Valid(d)
    ensures ParseDayStamp(DayStamp(d)) == Some((d.month, d.day))
  {
    var s := DayStamp(d);
    var abbr := MonthAbbreviations[d.month - 1];
    AbbreviationLength(d.month);
    assert s[..3] == abbr && s[4..] == TwoDigits(d.day);
    assert MonthNumber(abbr) == Some(d.month);
  }

  /** Python's `str` of an integer. */
  function IntText(n: int): (s: string)
    ensures |s| >= 1
  {
    if n < 0 then "-" + Text.NatToString(-n) else Text.NatToString(n)
  }

  /** Where the parts of a period's display sit. */
  lemma DisplayLayout(head: string, a: string, b: string, year: string)
    requires |a| == 6 && |b| == 6
    ensures var s := head + a + " - " + b + ", " + year;
      |s| >= |head| + 15 && Text.StartsWith(s, head)
      && s[|head|..][..6] == a && s[|head|..][9..15] == b && s[|head|..][15..] == ", " + year
  {
    var s := head + a + " - " + b + ", " + year;
    assert s == head + (a + " - " + b + ", " + year);
    assert s[|head|..] == a + " - " + b + ", " + year;
  }

  const NoPeriodSelected := "No pay period selected"

  /** The display of the selected pay period: its number, its first and
      last day, and the year of its last day. */
  function FormatPayPeriod(p: Option<UiPayPeriods.UiPeriod>): (s: string)
    requires p.Some? ==> Dates.Valid(p.value.start) && Dates.Valid(p.value.end)
    ensures p.None? <==> s == NoPeriodSelected
    ensures p.Some? ==>
      |s| >= |"Period " + IntText(p.value.number) + ": "| + 15
      && Text.StartsWith(s, "Period " + IntText(p.value.number) + ": ")
      && var rest := s[|"Period " + IntText(p.value.number) + ": "|..];
         ParseDayStamp(rest[..6]) == Some((p.value.start.month, p.value.start.day))
         && ParseDayStamp(rest[9..15]) == Some((p.value.end.month, p.value.end.day))
         && rest[15..] == ", " + Text.NatToString(p.value.end.year)
  {
    match p
    case None => NoPeriodSelected
    case Some(q) =>
      var head := "Period " + IntText(q.number) + ": ";
      var s := head + DayStamp(q.start) + " - " + DayStamp(q.end) + ", " + Text.NatToString(q.end.year);
      DayStampRoundTrip(q.start);
      DayStampRoundTrip(q.end);
      DisplayLayout(head, DayStamp(q.start), DayStamp(q.end), Text.NatToString(q.end.year));
      s
  }
}
