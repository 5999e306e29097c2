/** The "Assigned Technicians" field of a revenue row: names separated by
    ',' or '&'.  Every engine reads it the same way — replace '&' by ',',
    split on ',', strip each part, drop the empty ones — and the revenue
    editor writes edited names back joined with ", ". */
module TechLists {
  import Text
  import Seqs
  import Tables

  /** A name as the split produces it: non-empty, no blank at either end,
      and free of both separators. */
  predicate CleanName(t: string) {
    |t| > 0 && !Text.IsSpace(t[0]) && !Text.IsSpace(t[|t| - 1]) && SeparatorFreeName(t)
  }

  /** Neither separator occurs in `t`. */
  predicate SeparatorFreeName(t: string) {
    forall i :: 0 <= i < |t| ==> t[i] != ',' && t[i] != '&'
  }

  /** `[p.strip() for p in parts if p.strip()]` */
  function CleanParts(parts: seq<string>): (r: seq<string>)
    ensures |r| <= |parts|
    ensures forall i :: 0 <= i < |r| ==> |r[i]| > 0
    ensures forall i :: 0 <= i < |r| ==> !Text.IsSpace(r[i][0]) && !Text.IsSpace(r[i][|r[i]| - 1])
  {
    if |parts| == 0 then []
    else
      var t := Text.Strip(parts[0]);
      if t == "" then CleanParts(parts[1..]) else [t] + CleanParts(parts[1..])
  }

  /** The technicians named in a field, in order. */
  function TechList(s: string): (r: seq<string>)
    ensures forall i :: 0 <= i < |r| ==> CleanName(r[i])
  {
    var parts := Text.Split(Text.ReplaceChar(s, '&', ','), ',');
    SeparatorFree(s, parts);
    CleanPartsFree(parts);
    CleanParts(parts)
  }

  /** No part of the split holds a ',' or '&'. */
  lemma SeparatorFree(s: string, parts: seq<string>)
    requires parts == Text.Split(Text.ReplaceChar(s, '&', ','), ',')
    ensures forall k :: 0 <= k < |parts| ==> SeparatorFreeName(parts[k])
  {
    var u := Text.ReplaceChar(s, '&', ',');
    Text.SplitPartsFree(u, ',');
    Text.SplitPartsAvoid(u, ',', '&');
  }

  lemma {:induction false} CleanPartsFree(parts: seq<string>)
    requires forall k :: 0 <= k < |parts| ==> SeparatorFreeName(parts[k])
    ensures forall k :: 0 <= k < |CleanParts(parts)| ==> CleanName(CleanParts(parts)[k])
  {
    if |parts| > 0 {
      var tail := parts[1..];
      assert forall k :: 0 <= k < |tail| ==> SeparatorFreeName(tail[k]) by {
        forall k | 0 <= k < |tail| ensures SeparatorFreeName(tail[k]) {
          assert tail[k] == parts[k + 1];
        }
      }
      CleanPartsFree(tail);
      StripKeepsSeparatorFree(parts[0]);
      var r := CleanParts(parts);
      var rest := CleanParts(tail);
      if Text.Strip(parts[0]) != "" {
        assert r == [Text.Strip(parts[0])] + rest;
        forall k | 0 <= k < |r| ensures CleanName(r[k]) {
          if k > 0 {
            assert r[k] == rest[k - 1];
          }
        }
      } else {
        assert r == rest;
      }
    }
  }

  lemma StripKeepsSeparatorFree(p: string)
    requires SeparatorFreeName(p)
    ensures SeparatorFreeName(Text.Strip(p))
  {
    var t := Text.Strip(p);
    assert forall i :: 0 <= i < |t| ==> t[i] == p[Text.StripOffset(p) + i];
  }

  /** `pd.notna(cell) and name in technicians`: the row's technician field
      names `employee`. */
  predicate Listed(row: Tables.Row, employee: string) {
    var c := Tables.Get(row, "Assigned Technicians");
    Tables.NotNull(c) && employee in TechList(Tables.CellText(c))
  }

  /** The rows, in order, whose technician field names `employee`. */
  function ListingRows(rows: seq<Tables.Row>, employee: string): (r: seq<Tables.Row>)
    ensures |r| <= |rows|
    ensures forall row :: row in r <==> row in rows && Listed(row, employee)
    decreases |rows|
  {
    if |rows| == 0 then []
    else
      var rest := ListingRows(rows[..|rows| - 1], employee);
      var last := rows[|rows| - 1];
      assert forall row :: row in rows <==> row in rows[..|rows| - 1] || row == last;
      if Listed(last, employee) then rest + [last] else rest
  }

  /** What the revenue editor saves: the non-blank names joined by ", ". */
  function Recombine(names: seq<string>): (s: string)
  {
    Text.Join(NonBlank(names), ", ")
  }

  function NonBlank(names: seq<string>): (r: seq<string>)
    ensures forall i :: 0 <= i < |r| ==> !Text.IsBlank(r[i])
    ensures forall x :: x in r ==> x in names
  {
    if |names| == 0 then []
    else if Text.IsBlank(names[0]) then NonBlank(names[1..])
    else [names[0]] + NonBlank(names[1..])
  }

  /** Splitting the recombined list of a split gives the same list: a save
      of the technician columns without edits does not change who is
      credited. */
  lemma SplitJoinSplit(s: string)
    ensures TechList(Recombine(TechList(s))) == TechList(s)
  {
    var ts := TechList(s);
    NonBlankOfClean(ts);
    if |ts| == 0 {
      assert Recombine(ts) == "";
      assert Text.Split("", ',') == [""];
      assert Text.Strip("") == "";
    } else {
      TechListOfJoin(ts);
    }
  }

  lemma {:induction false} NonBlankOfClean(ts: seq<string>)
    requires forall i :: 0 <= i < |ts| ==> CleanName(ts[i])
    ensures NonBlank(ts) == ts
  {
    if |ts| > 0 {
      assert !Text.IsBlank(ts[0]) by { assert !Text.IsSpace(ts[0][0]); }
      NonBlankOfClean(ts[1..]);
    }
  }

  /** `Join(ts, ", ")` is `Join` with "," of the names, all but the first
      carrying one leading blank. */
  function Spaced(ts: seq<string>): (r: seq<string>)
    ensures |r| == |ts|
  {
    if |ts| == 0 then [] else [ts[0]] + Padded(ts[1..])
  }

  function Padded(ts: seq<string>): (r: seq<string>)
    ensures |r| == |ts|
    ensures forall i :: 0 <= i < |ts| ==> r[i] == " " + ts[i]
  {
    if |ts| == 0 then [] else [" " + ts[0]] + Padded(ts[1..])
  }

  lemma {:induction false} JoinSpaced(ts: seq<string>)
    requires |ts| >= 1
    ensures Text.Join(ts, ", ") == Text.Join(Spaced(ts), ",")
    decreases |ts|
  {
    if |ts| > 1 {
      JoinSpaced(ts[1..]);
      var rest := ts[1..];
      assert Spaced(rest) == [rest[0]] + Padded(rest[1..]);
      assert Spaced(ts)[1..] == Padded(rest);
      assert Padded(rest) == [" " + rest[0]] + Padded(rest[1..]);
      JoinHead(Padded(rest), Spaced(rest), rest[0]);
      assert Text.Join(Spaced(ts), ",") == ts[0] + "," + Text.Join(Padded(rest), ",");
      assert Text.Join(ts, ", ") == ts[0] + ", " + Text.Join(rest, ", ");
    }
  }

  /** Two lists that differ only in the first part by a leading blank join
      to strings that differ only by that blank. */
  lemma JoinHead(p: seq<string>, q: seq<string>, h: string)
    requires |p| == |q| >= 1
    requires p[0] == " " + h && q[0] == h && p[1..] == q[1..]
    ensures Text.Join(p, ",") == " " + Text.Join(q, ",")
  {
    if |p| > 1 {
      assert Text.Join(p, ",") == p[0] + "," + Text.Join(p[1..], ",");
      assert Text.Join(q, ",") == q[0] + "," + Text.Join(q[1..], ",");
    }
  }

  lemma TechListOfJoin(ts: seq<string>)
    requires |ts| >= 1
    requires forall i :: 0 <= i < |ts| ==> CleanName(ts[i])
    ensures TechList(Text.Join(ts, ", ")) == ts
  {
    var j := Text.Join(ts, ", ");
    JoinSpaced(ts);
    var sp := Spaced(ts);
    SpacedFree(ts);
    JoinFree(sp);
    Text.ReplaceAbsent(j, '&', ',');
    Text.SplitJoin(sp, ',');
    CleanSpaced(ts);
    TechListUnfold(j);
  }

  lemma SpacedFree(ts: seq<string>)
    requires forall i :: 0 <= i < |ts| ==> CleanName(ts[i])
    ensures forall k, i :: 0 <= k < |Spaced(ts)| && 0 <= i < |Spaced(ts)[k]| ==> Spaced(ts)[k][i] != ',' && Spaced(ts)[k][i] != '&'
  {
    var sp := Spaced(ts);
    forall k, i | 0 <= k < |sp| && 0 <= i < |sp[k]|
      ensures sp[k][i] != ',' && sp[k][i] != '&'
    {
      if k > 0 {
        assert sp[k] == Padded(ts[1..])[k - 1] == " " + ts[k];
        if i > 0 { assert sp[k][i] == ts[k][i - 1]; }
      }
    }
  }

  lemma TechListUnfold(s: string)
    ensures TechList(s) == CleanParts(Text.Split(Text.ReplaceChar(s, '&', ','), ','))
  {
  }

  /** A join of separator-free parts with "," holds no '&'. */
  lemma {:induction false} JoinFree(parts: seq<string>)
    requires forall k, i :: 0 <= k < |parts| && 0 <= i < |parts[k]| ==> parts[k][i] != ',' && parts[k][i] != '&'
    ensures forall i :: 0 <= i < |Text.Join(parts, ",")| ==> Text.Join(parts, ",")[i] != '&'
    decreases |parts|
  {
    if |parts| > 1 {
      JoinFree(parts[1..]);
      var t := Text.Join(parts[1..], ",");
      var j := Text.Join(parts, ",");
      assert j == parts[0] + "," + t;
      forall i | 0 <= i < |j| ensures j[i] != '&' {
        if i < |parts[0]| {
          assert j[i] == parts[0][i];
        } else if i > |parts[0]| {
          assert j[i] == t[i - |parts[0]| - 1];
        }
      }
    } else if |parts| == 1 {
      assert Text.Join(parts, ",") == parts[0];
    }
  }

  lemma {:induction false} CleanSpaced(ts: seq<string>)
    requires |ts| >= 1
    requires forall i :: 0 <= i < |ts| ==> CleanName(ts[i])
    ensures CleanParts(Spaced(ts)) == ts
  {
    var sp := Spaced(ts);
    assert Text.Strip(ts[0]) == ts[0] by { Text.StripKeepsNonBlank(ts[0]); }
    CleanPadded(ts[1..]);
    assert sp[0] == ts[0] && sp[1..] == Padded(ts[1..]);
    CleanPartsCons(sp);
    assert ts == [ts[0]] + ts[1..];
  }

  lemma {:induction false} CleanPadded(ts: seq<string>)
    requires forall i :: 0 <= i < |ts| ==> CleanName(ts[i])
    ensures CleanParts(Padded(ts)) == ts
    decreases |ts|
  {
    if |ts| > 0 {
      CleanPadded(ts[1..]);
      StripLeadingBlank(ts[0]);
      var p := Padded(ts);
      assert p[0] == " " + ts[0] && p[1..] == Padded(ts[1..]);
      CleanPartsCons(p);
      assert ts == [ts[0]] + ts[1..];
    }
  }

  lemma CleanPartsCons(parts: seq<string>)
    requires |parts| > 0 && Text.Strip(parts[0]) != ""
    ensures CleanParts(parts) == [Text.Strip(parts[0])] + CleanParts(parts[1..])
  {
  }

  lemma StripLeadingBlank(t: string)
    requires |t| > 0 && !Text.IsSpace(t[0]) && !Text.IsSpace(t[|t| - 1])
    ensures Text.Strip(" " + t) == t
  {
    var u := " " + t;
    assert u[1..] == t;
    assert Text.TrimStart(u) == Text.TrimStart(t) == t;
    assert Text.TrimEnd(t) == t;
  }

  /** `safe_technician_split` from the error-handling helpers: the input is
      split in turn on ',', '&' and the word "and" (each time keeping the
      first copy of every non-blank stripped part and re-joining with a
      blank, or leaving the text as it was when nothing is left), then
      split on blanks with repeats dropped.  Text that is empty or not a
      string gives no names. */
  function SafeTechnicianSplit(s: string): (r: seq<string>)
    ensures Seqs.NoDuplicates(r)
    ensures forall i :: 0 <= i < |r| ==> Text.IsWord(r[i])
    ensures s == "" ==> r == []
  {
    if s == "" then []
    else FinalSplit(SplitStep(SplitStep(SplitStep(Text.Strip(s), ","), "&"), "and"))
  }

  /** The final blank split with repeats dropped. */
  function FinalSplit(c: string): (r: seq<string>)
    ensures Seqs.NoDuplicates(r)
    ensures forall i :: 0 <= i < |r| ==> Text.IsWord(r[i])
  {
    var ws := Text.Words(c);
    var r := Seqs.Dedup(ws);
    DedupWords(ws, r);
    r
  }

  /** Dropping repeats keeps every word's properties. */
  lemma DedupWords(ws: seq<string>, r: seq<string>)
    requires r == Seqs.Dedup(ws)
    requires forall i :: 0 <= i < |ws| ==> Text.IsWord(ws[i])
    ensures forall i :: 0 <= i < |r| ==> Text.IsWord(r[i])
  {
    forall i | 0 <= i < |r|
      ensures Text.IsWord(r[i])
    {
      assert r[i] in ws;
      var k :| 0 <= k < |ws| && ws[k] == r[i];
    }
  }

  /** One round of the separator loop. */
  function SplitStep(result: string, sep: string): (r: string)
    requires |sep| > 0
  {
    var parts := Seqs.Dedup(CleanParts(Text.SplitOn(result, sep)));
    if |parts| > 0 then Text.Join(parts, " ") else result
  }
}
