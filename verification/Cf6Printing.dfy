/** Monthly climate tables as they are printed, and the proof that the parser reads the latest day back. */
module Cf6Printing {
  import opened MachineInts
  import opened Sequences
  import opened Text
  import opened Decimal
  import opened CliScanning
  import opened PrintedLines
  import opened Cf6Report

  // ---------------------------------------------------------------- how lines are printed

  /** CF6 and three capitals, with no CF6 before. */
  ghost predicate PrintsStation(line: string, station: string) {
    |station| == 3 && Capitals(station) && exists i: nat :: FirstCf6(line, i) && HasAt(line, station, i + 3)
  }

  ghost predicate FirstCf6(line: string, i: nat) {
    HasAt(line, "CF6", i) && forall j: nat :: j < i ==> !HasAt(line, "CF6", j)
  }

  /** No CF6, or three capitals do not follow the first. */
  ghost predicate PrintsNoStation(line: string) {
    || !Has(line, "CF6")
    || exists i: nat :: FirstCf6(line, i) && !(i + 6 <= |line| && Capitals(line[i + 3..i + 6]))
  }

  function MonthLine(head: string, name: string, tail: string): string { head + name + tail }

  /** MONTH: and the name of a month, with no earlier word that begins like one. */
  ghost predicate PrintsMonth(line: string, month: nat) {
    && 1 <= month <= 12 && Mentions(line, "MONTH:")
    && exists head, name, tail :: line == MonthLine(head, name, tail) && MonthParts(head, name, month, tail)
  }

  ghost predicate MonthParts(head: string, name: string, month: nat, tail: string)
    requires 1 <= month <= 12
  {
    && NoMonthWord(head) && (head != [] ==> !IsAlpha(head[|head| - 1]))
    && |name| >= 3 && (forall i :: 0 <= i < |name| ==> IsAlpha(name[i])) && OccursAt(name, MONTHS[month - 1], 0)
    && (tail != [] ==> !IsAlpha(tail[0]))
  }

  ghost predicate PrintsNoMonth(line: string) { !Mentions(line, "MONTH:") || NoMonthWord(line) }

  function YearLine(head: string, year: nat, tail: string): string { head + (Print(year) + tail) }

  /** YEAR: and a year, the first number of the line. */
  ghost predicate PrintsYear(line: string, year: nat) {
    && 1900 <= year <= 2200 && Mentions(line, "YEAR:")
    && exists head, tail ::
         line == YearLine(head, year, tail) && NoDigits(head) && (tail != [] ==> !('0' <= tail[0] <= '9'))
  }

  ghost predicate PrintsNoYear(line: string) { !Mentions(line, "YEAR:") || NoDigits(line) }

  /** The columns' titles: DY among the first characters, MAX and MIN anywhere. */
  ghost predicate IsTitle(line: string) {
    (exists i: nat :: i < 5 && HasAt(line, "DY", i)) && Has(line, "MAX") && Has(line, "MIN")
  }

  /** After blanks, one of the words that end the table. */
  ghost predicate EndsTable(line: string) {
    exists i: nat :: FirstInk(line, i) &&
      (HasAt(line, "SM ", i) || HasAt(line, "AV ", i) || HasAt(line, "NOTES", i) || HasAt(line, "$$", i)
       || HasAt(line, "MAX(", i) || HasAt(line, "MISC", i))
  }

  ghost predicate FirstInk(line: string, i: nat) {
    i <= |line| && (forall j :: 0 <= j < i ==> IsSpace(line[j])) && (i < |line| ==> !IsSpace(line[i]))
  }

  /** A day of the month, a maximum and a minimum begin the first three words. */
  ghost predicate PrintsRow(line: string, reading: Reading) {
    && 1 <= reading.day <= 31
    && exists words ::
         && Spells(line, words) && |words| >= 3
         && Begins(words[0], reading.day) && Begins(words[1], reading.tmax) && Begins(words[2], reading.tmin)
  }

  // ---------------------------------------------------------------- what is read off them

  lemma FirstCf6IsFound(line: string, i: nat)
    requires FirstCf6(line, i)
    ensures Find(line, "CF6") == Some(i)
  {
    HasIsFound(line, "CF6");
  }

  lemma CapitalsAt(line: string, k: nat)
    requires k + 3 <= |line|
    ensures Capitals(line[k..k + 3]) <==> IsUpper(line[k]) && IsUpper(line[k + 1]) && IsUpper(line[k + 2])
  {
    assert line[k..k + 3] == [line[k], line[k + 1], line[k + 2]];
  }

  lemma StationAt(line: string, i: nat)
    requires FirstCf6(line, i)
    ensures StationOn(line) == if i + 6 <= |line| && Capitals(line[i + 3..i + 6]) then line[i + 3..i + 6] else []
  {
    FirstCf6IsFound(line, i);
    if i + 6 <= |line| {
      CapitalsAt(line, i + 3);
    }
  }

  lemma StationIsRead(line: string, station: string)
    requires PrintsStation(line, station)
    ensures StationOn(line) == station
  {
    var i: nat :| FirstCf6(line, i) && HasAt(line, station, i + 3);
    StationAt(line, i);
  }

  lemma NoStationIsRead(line: string)
    requires PrintsNoStation(line)
    ensures StationOn(line) == []
  {
    if !Has(line, "CF6") {
      HasIsFound(line, "CF6");
    } else {
      var i: nat :| FirstCf6(line, i) && !(i + 6 <= |line| && Capitals(line[i + 3..i + 6]));
      StationAt(line, i);
    }
  }

  lemma MonthIsFound(line: string, month: nat)
    requires PrintsMonth(line, month)
    ensures MonthOn(line) == month
  {
    MentionIsFound(line, "MONTH:");
    var head, name, tail :| line == MonthLine(head, name, tail) && MonthParts(head, name, month, tail);
    MonthNameIsRead(name, month);
    MonthIsRead(head, name, tail, month);
  }

  lemma NoMonthIsFound(line: string)
    requires PrintsNoMonth(line)
    ensures MonthOn(line) == 0
  {
    MentionIsFound(line, "MONTH:");
    if NoMonthWord(line) {
      EarlierWordsAreNone(line, line);
      MonthIsOfWholeWord(line);
    }
  }

  lemma YearIsFound(line: string, year: nat)
    requires PrintsYear(line, year)
    ensures YearOn(line) == year
  {
    MentionIsFound(line, "YEAR:");
    var head, tail :|
      line == YearLine(head, year, tail) && NoDigits(head) && (tail != [] ==> !('0' <= tail[0] <= '9'));
    RunIsAhead(head, Print(year) + tail, 1900, 2200);
    RunIsRead(year, tail, 1900, 2200);
  }

  lemma NoYearIsFound(line: string)
    requires PrintsNoYear(line)
    ensures YearOn(line) == 0
  {
    MentionIsFound(line, "YEAR:");
    if NoDigits(line) {
      NoRunWithoutDigits(line, 1900, 2200);
    }
  }

  lemma TitleIsFound(line: string)
    ensures IsTitle(line) <==> IsDataHeader(line)
  {
    HasIsFound(line, "DY");
    HasIsFound(line, "MAX");
    HasIsFound(line, "MIN");
    if IsTitle(line) {
      var i: nat :| i < 5 && HasAt(line, "DY", i);
    }
  }

  lemma {:induction false} InkIsTrimmed(line: string, i: nat)
    requires FirstInk(line, i)
    ensures LeftTrim(line) == line[i..]
  {
    if i > 0 {
      assert FirstInk(line[1..], i - 1);
      InkIsTrimmed(line[1..], i - 1);
    }
  }

  lemma {:induction false} SomeFirstInk(line: string) returns (i: nat)
    ensures FirstInk(line, i)
  {
    i := 0;
    if line != [] && IsSpace(line[0]) {
      var j := SomeFirstInk(line[1..]);
      i := j + 1;
    }
  }

  lemma EndIsFound(line: string)
    ensures EndsTable(line) <==> IsSummary(line)
  {
    var i := SomeFirstInk(line);
    InkIsTrimmed(line, i);
    StartsWith(line, i, "SM ");
    StartsWith(line, i, "AV ");
    StartsWith(line, i, "NOTES");
    StartsWith(line, i, "$$");
    StartsWith(line, i, "MAX(");
    StartsWith(line, i, "MISC");
    forall j: nat | FirstInk(line, j) ensures j == i {
    }
  }

  lemma TemperatureIsRead(word: string, n: int)
    ensures Temperature(word) == Some(n) <==> Begins(word, n)
  {
    ReadingBegins(word, n);
    if word == "M" || word == "T" {
      assert word[0..] == word;
    }
  }

  lemma RowIsFound(line: string, reading: Reading)
    ensures PrintsRow(line, reading) <==> RowOf(line) == Some(reading)
  {
    var words := Tokens(line);
    TokensSpell(line);
    if |words| >= 3 {
      ReadingBegins(words[0], reading.day);
      TemperatureIsRead(words[1], reading.tmax);
      TemperatureIsRead(words[2], reading.tmin);
    }
    forall other | Spells(line, other) ensures other == words {
      SpelledAreRead(line, other);
    }
  }

  // ---------------------------------------------------------------- the table

  /** A table as it is printed: its title is line `title`; it ends with line `end`, or with the text. */
  ghost predicate IsTable(lines: seq<string>, title: nat, end: nat) {
    && title < end <= |lines| && IsTitle(lines[title]) && (forall i :: 0 <= i < title ==> !IsTitle(lines[i]))
    && (end < |lines| ==> EndsTable(lines[end])) && forall i :: title < i < end ==> !EndsTable(lines[i])
  }

  /** Row `k` prints the reading; rows before it print readings of earlier days, and rows after it of no
      later day, if any. */
  ghost predicate IsLatestRow(rows: seq<string>, k: nat, reading: Reading) {
    && k < |rows| && PrintsRow(rows[k], reading)
    && AllEarlier(rows[..k], reading.day) && AllEarlier(rows[k + 1..], reading.day + 1)
  }

  ghost predicate AllEarlier(rows: seq<string>, day: int) {
    forall i, r :: 0 <= i < |rows| && PrintsRow(rows[i], r) ==> r.day < day
  }

  /** The lines that are looked at: up to the end of the table. */
  function Seen(lines: seq<string>, end: nat): seq<string> { if end < |lines| then lines[..end + 1] else lines }

  /** The lines looked at and those of the table, by marks that tell titles and ends. */
  function CutSeen(lines: seq<string>, titles: seq<bool>, ends: seq<bool>, past: bool): seq<string>
    requires |lines| == |titles| == |ends|
  {
    if lines == [] then []
    else if past && ends[0] then [lines[0]]
    else [lines[0]] + CutSeen(lines[1..], titles[1..], ends[1..], past || titles[0])
  }

  function CutRows(lines: seq<string>, titles: seq<bool>, ends: seq<bool>, past: bool): seq<string>
    requires |lines| == |titles| == |ends|
  {
    if lines == [] || (past && ends[0]) then []
    else (if past then [lines[0]] else []) + CutRows(lines[1..], titles[1..], ends[1..], past || titles[0])
  }

  ghost function TitlesOf(lines: seq<string>): (r: seq<bool>)
    ensures |r| == |lines| && forall i :: 0 <= i < |lines| ==> r[i] == IsTitle(lines[i])
  {
    seq(|lines|, i requires 0 <= i < |lines| => IsTitle(lines[i]))
  }

  ghost function EndsOf(lines: seq<string>): (r: seq<bool>)
    ensures |r| == |lines| && forall i :: 0 <= i < |lines| ==> r[i] == EndsTable(lines[i])
  {
    seq(|lines|, i requires 0 <= i < |lines| => EndsTable(lines[i]))
  }

  lemma {:induction false} MarksCut(lines: seq<string>, past: bool)
    ensures Scanned(lines, past) == CutSeen(lines, TitlesOf(lines), EndsOf(lines), past)
    ensures TableRows(lines, past) == CutRows(lines, TitlesOf(lines), EndsOf(lines), past)
  {
    if lines != [] {
      TitleIsFound(lines[0]);
      EndIsFound(lines[0]);
      MarksCut(lines[1..], past || IsTitle(lines[0]));
      assert TitlesOf(lines)[1..] == TitlesOf(lines[1..]) && EndsOf(lines)[1..] == EndsOf(lines[1..]);
    }
  }

  ghost predicate FirstAt(marks: seq<bool>, k: nat) {
    k < |marks| && marks[k] && forall i :: 0 <= i < k ==> !marks[i]
  }

  ghost predicate NextAt(marks: seq<bool>, from: nat, to: nat) {
    && from < to <= |marks| && (to < |marks| ==> marks[to]) && forall i :: from < i < to ==> !marks[i]
  }

  lemma FirstAtRest(marks: seq<bool>, k: nat)
    requires FirstAt(marks, k)
    ensures marks[0] <==> k == 0
    ensures k > 0 ==> FirstAt(marks[1..], k - 1)
  {
  }

  lemma NextAtRest(marks: seq<bool>, from: nat, to: nat)
    requires NextAt(marks, from, to)
    ensures from > 0 ==> NextAt(marks[1..], from - 1, to - 1)
    ensures from == 0 ==> EndAt(marks[1..], to - 1)
  {
  }

  ghost predicate EndAt(marks: seq<bool>, to: nat) {
    to <= |marks| && (to < |marks| ==> marks[to]) && forall i :: 0 <= i < to ==> !marks[i]
  }

  lemma EndAtRest(marks: seq<bool>, to: nat)
    requires EndAt(marks, to)
    ensures to > 0 ==> marks != [] && !marks[0] && EndAt(marks[1..], to - 1)
  {
  }

  lemma SeenInRest(lines: seq<string>, end: nat)
    requires 0 < end <= |lines|
    ensures Seen(lines, end) == [lines[0]] + Seen(lines[1..], end - 1)
  {
  }

  lemma {:induction false} RowsAreCut(lines: seq<string>, titles: seq<bool>, ends: seq<bool>, end: nat)
    requires |titles| == |ends| == |lines| && EndAt(ends, end)
    ensures CutSeen(lines, titles, ends, true) == Seen(lines, end) && CutRows(lines, titles, ends, true) == lines[..end]
  {
    EndAtRest(ends, end);
    if end > 0 {
      RowsAreCut(lines[1..], titles[1..], ends[1..], end - 1);
      SeenInRest(lines, end);
      assert lines[..end] == [lines[0]] + lines[1..][..end - 1];
    } else if lines != [] {
      assert lines[..1] == [lines[0]];
    }
  }

  lemma TitleIsCut(lines: seq<string>, titles: seq<bool>, ends: seq<bool>, end: nat)
    requires |titles| == |ends| == |lines| && lines != [] && titles[0]
    requires 0 < end <= |lines| && EndAt(ends[1..], end - 1)
    ensures CutSeen(lines, titles, ends, false) == Seen(lines, end)
    ensures CutRows(lines, titles, ends, false) == lines[1..end]
  {
    RowsAreCut(lines[1..], titles[1..], ends[1..], end - 1);
    SeenInRest(lines, end);
    SliceOfRest(lines, 1, end);
    NothingMore(lines[1..end]);
  }

  lemma BeforeTitle(lines: seq<string>, titles: seq<bool>, ends: seq<bool>, title: nat, end: nat)
    requires |titles| == |ends| == |lines| && 0 < title < end <= |lines| && !titles[0]
    requires CutSeen(lines[1..], titles[1..], ends[1..], false) == Seen(lines[1..], end - 1)
    requires CutRows(lines[1..], titles[1..], ends[1..], false) == lines[1..][title..end - 1]
    ensures CutSeen(lines, titles, ends, false) == Seen(lines, end)
    ensures CutRows(lines, titles, ends, false) == lines[title + 1..end]
  {
    SeenInRest(lines, end);
    SliceOfRest(lines, title + 1, end);
    NothingMore(lines[title + 1..end]);
  }

  lemma {:induction false} TableIsCut(lines: seq<string>, titles: seq<bool>, ends: seq<bool>, title: nat, end: nat)
    requires |titles| == |ends| == |lines| && FirstAt(titles, title) && NextAt(ends, title, end)
    ensures CutSeen(lines, titles, ends, false) == Seen(lines, end)
    ensures CutRows(lines, titles, ends, false) == lines[title + 1..end]
  {
    FirstAtRest(titles, title);
    NextAtRest(ends, title, end);
    if title == 0 {
      TitleIsCut(lines, titles, ends, end);
    } else {
      TableIsCut(lines[1..], titles[1..], ends[1..], title - 1, end - 1);
      BeforeTitle(lines, titles, ends, title, end);
    }
  }

  lemma PrintedTableIsCut(lines: seq<string>, title: nat, end: nat)
    requires IsTable(lines, title, end)
    ensures Scanned(lines, false) == Seen(lines, end) && TableRows(lines, false) == lines[title + 1..end]
  {
    MarksCut(lines, false);
    TableIsCut(lines, TitlesOf(lines), EndsOf(lines), title, end);
  }

  lemma {:induction false} FirstMonthIs(lines: seq<string>, i: nat)
    requires FirstWhere(lines, MonthOn, i)
    ensures FirstMonth(lines) == MonthOn(lines[i])
  {
    MonthAndYearAreFirst(lines);
    var j :| FirstWhere(lines, MonthOn, j) && MonthOn(lines[j]) == FirstMonth(lines);
  }

  lemma {:induction false} FirstYearIs(lines: seq<string>, i: nat)
    requires FirstWhere(lines, YearOn, i)
    ensures FirstYear(lines) == YearOn(lines[i])
  {
    MonthAndYearAreFirst(lines);
    var j :| FirstWhere(lines, YearOn, j) && YearOn(lines[j]) == FirstYear(lines);
  }

  lemma {:induction false} FirstStationIs(lines: seq<string>, i: nat)
    requires i < |lines| && StationOn(lines[i]) != [] && forall j :: 0 <= j < i ==> StationOn(lines[j]) == []
    ensures FirstStation(lines) == StationOn(lines[i])
  {
    if i > 0 {
      FirstStationIs(lines[1..], i - 1);
    }
  }

  datatype Month = Month(station: string, year: nat, month: nat, latest: Reading)

  /** Lines `s`, `m` and `y`, up to the end of the table, are the first to print station, month and year. */
  ghost predicate PrintsHead(lines: seq<string>, end: nat, s: nat, m: nat, y: nat, c: Month) {
    && s < |Seen(lines, end)| && PrintsStation(lines[s], c.station)
    && (forall i :: 0 <= i < s ==> PrintsNoStation(lines[i]))
    && m < |Seen(lines, end)| && PrintsMonth(lines[m], c.month) && (forall i :: 0 <= i < m ==> PrintsNoMonth(lines[i]))
    && y < |Seen(lines, end)| && PrintsYear(lines[y], c.year) && (forall i :: 0 <= i < y ==> PrintsNoYear(lines[i]))
  }

  lemma StationOfTable(lines: seq<string>, seen: seq<string>, s: nat, station: string)
    requires seen <= lines && s < |seen| && PrintsStation(lines[s], station)
    requires forall i :: 0 <= i < s ==> PrintsNoStation(lines[i])
    ensures FirstStation(seen) == station
  {
    StationIsRead(lines[s], station);
    forall i | 0 <= i < s ensures StationOn(seen[i]) == [] {
      NoStationIsRead(lines[i]);
    }
    FirstStationIs(seen, s);
  }

  lemma MonthOfTable(lines: seq<string>, seen: seq<string>, m: nat, month: nat)
    requires seen <= lines && m < |seen| && PrintsMonth(lines[m], month)
    requires forall i :: 0 <= i < m ==> PrintsNoMonth(lines[i])
    ensures FirstMonth(seen) == month
  {
    MonthIsFound(lines[m], month);
    forall i | 0 <= i < m ensures MonthOn(seen[i]) == 0 {
      NoMonthIsFound(lines[i]);
    }
    FirstMonthIs(seen, m);
  }

  lemma YearOfTable(lines: seq<string>, seen: seq<string>, y: nat, year: nat)
    requires seen <= lines && y < |seen| && PrintsYear(lines[y], year)
    requires forall i :: 0 <= i < y ==> PrintsNoYear(lines[i])
    ensures FirstYear(seen) == year
  {
    YearIsFound(lines[y], year);
    forall i | 0 <= i < y ensures YearOn(seen[i]) == 0 {
      NoYearIsFound(lines[i]);
    }
    FirstYearIs(seen, y);
  }

  ghost predicate AllBefore(rs: seq<Option<Reading>>, day: int) {
    forall i :: 0 <= i < |rs| && rs[i].Some? ==> rs[i].value.day < day
  }

  lemma EarlierAreRead(rows: seq<string>, day: int)
    requires AllEarlier(rows, day)
    ensures AllBefore(Readings(rows), day)
  {
    forall i | 0 <= i < |rows| && Readings(rows)[i].Some? ensures Readings(rows)[i].value.day < day {
      RowIsFound(rows[i], Readings(rows)[i].value);
    }
  }

  lemma ReadingsAround(rows: seq<string>, k: nat)
    requires k < |rows|
    ensures Readings(rows) == Readings(rows[..k]) + [RowOf(rows[k])] + Readings(rows[k + 1..])
  {
    EachAround(rows, RowOf, k);
  }

  /** The first reading of the latest day is the best. */
  lemma LatestIsBest(before: seq<Option<Reading>>, reading: Reading, after: seq<Option<Reading>>)
    requires AllBefore(before, reading.day) && reading.day > 0 && AllBefore(after, reading.day + 1)
    ensures Best(NO_READING, before + [Some(reading)] + after) == reading
  {
    var rs := before + [Some(reading)] + after;
    assert rs[|before|] == Some(reading);
    assert forall i :: |before| < i < |rs| ==> rs[i] == after[i - |before| - 1];
    assert IsLatest(rs, |before|);
    BestSoFar(NO_READING, rs);
    var j :| IsLatest(rs, j) && rs[j] == Some(Best(NO_READING, rs));
  }

  lemma LatestRowIsRead(rows: seq<string>, k: nat, reading: Reading)
    requires IsLatestRow(rows, k, reading)
    ensures Best(NO_READING, Readings(rows)) == reading
  {
    RowIsFound(rows[k], reading);
    EarlierAreRead(rows[..k], reading.day);
    EarlierAreRead(rows[k + 1..], reading.day + 1);
    ReadingsAround(rows, k);
    LatestIsBest(Readings(rows[..k]), reading, Readings(rows[k + 1..]));
  }

  lemma ReportIsDated(st: Scan, c: Month, preliminary: bool, corrected: bool)
    requires st == Scan(c.station, c.month, c.year, c.latest) && c.station != []
    requires 1 <= c.month <= 12 && 1900 <= c.year <= 2200 && 1 <= c.latest.day <= 31
    ensures ReportOf(st, preliminary, corrected) ==
            Ok(Report("K" + c.station, DateText(c.year, c.month, c.latest.day), c.latest.tmax, c.latest.tmin,
                      preliminary, corrected))
  {
    DateIsText(c.year, c.month, c.latest.day);
  }

  lemma TableIsFound(lines: seq<string>, title: nat, end: nat, k: nat, s: nat, m: nat, y: nat, c: Month)
    requires IsTable(lines, title, end) && IsLatestRow(lines[title + 1..end], k, c.latest)
    requires PrintsHead(lines, end, s, m, y, c)
    ensures Found(Scan([], 0, 0, NO_READING), lines, false) == Scan(c.station, c.month, c.year, c.latest)
  {
    PrintedTableIsCut(lines, title, end);
    var seen := Seen(lines, end);
    StationOfTable(lines, seen, s, c.station);
    MonthOfTable(lines, seen, m, c.month);
    YearOfTable(lines, seen, y, c.year);
    LatestRowIsRead(lines[title + 1..end], k, c.latest);
    FoundFromStart(lines);
  }

  /** ROUND TRIP. Whatever else is printed around them, a table's station, month and year are read back from
      the first lines that print them, and the day and temperatures from the latest row that gives both. */
  lemma PrintedTableIsParsed(lines: seq<string>, cr: bool, title: nat, end: nat, k: nat, s: nat, m: nat, y: nat,
                             c: Month)
    requires forall i :: 0 <= i < |lines| ==> Cuttable(lines[i], cr)
    requires IsTable(lines, title, end) && IsLatestRow(lines[title + 1..end], k, c.latest)
    requires PrintsHead(lines, end, s, m, y, c)
    ensures var text := PrintLines(lines, cr);
            Cf6Of(text) == Ok(Report("K" + c.station, DateText(c.year, c.month, c.latest.day),
                                     c.latest.tmax, c.latest.tmin, Mentions(text, "PRELIMINARY"),
                                     Mentions(text, "CORRECTED") || Mentions(text, "...COR")))
  {
    var text := PrintLines(lines, cr);
    LinesOfPrinted(lines, cr);
    TableIsFound(lines, title, end, k, s, m, y, c);
    FlagsAreRead(text);
    ReportIsDated(Scan(c.station, c.month, c.year, c.latest), c, IsPreliminary(text), IsCorrected(text));
  }

  lemma FlagsAreRead(text: string)
    ensures IsPreliminary(text) == Mentions(text, "PRELIMINARY")
    ensures IsCorrected(text) == (Mentions(text, "CORRECTED") || Mentions(text, "...COR"))
  {
    MentionIsFound(text, "PRELIMINARY");
    MentionIsFound(text, "CORRECTED");
    MentionIsFound(text, "...COR");
  }
}
