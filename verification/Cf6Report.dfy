/** The monthly climate table (CF6, WS Form F-6): pick the latest day of the month whose maximum and
    minimum are both given. What is picked is defined over the whole text; the parser reads line by
    line and is proved to pick it. */
module Cf6Report {
  import opened MachineInts
  import opened Sequences
  import opened Text
  import opened Decimal
  import opened CliScanning

  // ---------------------------------------------------------------- month, year, station

  /** The year on a line: the first run of digits between 1900 and 2200. */
  method YearIn(line: string) returns (y: int)
    ensures y == FirstRun(line, 1900, 2200)
  {
    var p: nat := 0;
    assert line[0..] == line;
    while p < |line|
      invariant RunFrom(line, p, 1900, 2200) == FirstRun(line, 1900, 2200)
      decreases |line| - p
    {
      var from, to := NextRun(line, p);
      if to > from && IsYear(RunValue(line[from..to])) {
        return RunValue(line[from..to]);
      }
      p := to + 1;
    }
    assert p == |line| ==> line[p..] == [];
    y := 0;
  }

  /** The three capitals after the first CF6 of a line. */
  function StationOn(line: string): string {
    match Find(line, "CF6")
    case None => []
    case Some(p) =>
      if p + 6 <= |line| && IsUpper(line[p + 3]) && IsUpper(line[p + 4]) && IsUpper(line[p + 5])
      then line[p + 3..p + 6] else []
  }

  function MonthOn(line: string): (m: int)
    ensures 0 <= m <= 12
  {
    if ContainsAnyCase(line, "MONTH:") then MonthOf(line) else 0
  }

  function YearOn(line: string): (y: int)
    ensures y == 0 || IsYear(y)
  {
    if ContainsAnyCase(line, "YEAR:") then FirstRun(line, 1900, 2200) else 0
  }

  // ---------------------------------------------------------------- rows

  datatype Reading = Reading(day: int, tmax: int, tmin: int)

  predicate IsDataHeader(line: string) {
    && Find(line, "DY").Some? && Find(line, "DY").value < 5
    && Contains(line, "MAX") && Contains(line, "MIN")
  }

  function LeftTrim(s: string): string {
    if s != [] && IsSpace(s[0]) then LeftTrim(s[1..]) else s
  }

  /** A line on which the table ends. */
  predicate IsSummary(line: string) {
    var body := LeftTrim(line);
    || "SM " <= body || "AV " <= body || "NOTES" <= body || "$$" <= body || "MAX(" <= body || "MISC" <= body
  }

  /** A temperature column: missing or trace markers and anything not beginning with a 32-bit integer
      are absent. */
  function Temperature(t: string): Option<int> {
    if t == "M" || t == "T" then None
    else
      match ReadInt(t)
      case Value(v, _) => Some(v)
      case _ => None
  }

  /** The reading of a row that gives a day of the month and both temperatures. */
  function RowOf(line: string): (r: Option<Reading>)
    ensures r.Some? ==> 1 <= r.value.day <= 31
  {
    var words := Tokens(line);
    if |words| < 3 then None
    else
      match ReadInt(words[0])
      case Value(day, _) =>
        if 1 <= day <= 31 && Temperature(words[1]).Some? && Temperature(words[2]).Some?
        then Some(Reading(day, Temperature(words[1]).value, Temperature(words[2]).value)) else None
      case _ => None
  }

  lemma PrintedIsNeitherMark(n: int)
    ensures Print(n) != "M" && Print(n) != "T"
  {
    PrintedAlphabet(n);
    assert Print(n)[0] != 'M' && Print(n)[0] != 'T';
  }

  function RowWords(reading: Reading, rest: seq<string>): seq<string> {
    [Print(reading.day), Print(reading.tmax), Print(reading.tmin)] + rest
  }

  /** ROUND TRIP FOR ROWS. A row printed with a day of the month and two 32-bit temperatures in front is
      read back, however wide its columns are and whatever columns follow. */
  lemma {:induction false} PrintedRowIsRead(line: string, reading: Reading, rest: seq<string>)
    requires 1 <= reading.day <= 31 && FitsInt(reading.tmax) && FitsInt(reading.tmin)
    requires Spells(line, RowWords(reading, rest))
    ensures RowOf(line) == Some(reading)
  {
    PrintedIsNeitherMark(reading.tmax);
    PrintedIsNeitherMark(reading.tmin);
    ReadPrinted(reading.day);
    ReadPrinted(reading.tmax);
    ReadPrinted(reading.tmin);
    SpelledAreRead(line, RowWords(reading, rest));
  }

  /** A row with a missing or trace marker for either temperature gives no reading, and neither does one
      whose day is printed but out of the month. */
  lemma {:induction false} MarkedRowGivesNothing(line: string, words: seq<string>, day: int)
    requires |words| >= 3 && Spells(line, words)
    requires words[1] == "M" || words[1] == "T" || words[2] == "M" || words[2] == "T"
             || (words[0] == Print(day) && FitsInt(day) && !(1 <= day <= 31))
    ensures RowOf(line).None?
  {
    SpelledAreRead(line, words);
    if words[0] == Print(day) && FitsInt(day) {
      ReadPrinted(day);
    }
  }

  /** The lines the parser looks at: up to and including the first summary row after the header. */
  function Scanned(lines: seq<string>, pastHeader: bool): seq<string> {
    if lines == [] then []
    else if pastHeader && IsSummary(lines[0]) then [lines[0]]
    else [lines[0]] + Scanned(lines[1..], pastHeader || IsDataHeader(lines[0]))
  }

  /** The lines between the data header and the first summary row after it. */
  function TableRows(lines: seq<string>, pastHeader: bool): seq<string> {
    if lines == [] || (pastHeader && IsSummary(lines[0])) then []
    else (if pastHeader then [lines[0]] else []) + TableRows(lines[1..], pastHeader || IsDataHeader(lines[0]))
  }

  function FirstMonth(lines: seq<string>): (m: int)
    ensures 0 <= m <= 12
    ensures m != 0 <==> exists i :: 0 <= i < |lines| && MonthOn(lines[i]) != 0
  {
    if lines == [] then 0
    else if MonthOn(lines[0]) != 0 then MonthOn(lines[0])
    else
      assert lines == [lines[0]] + lines[1..];
      FirstMonth(lines[1..])
  }

  function FirstYear(lines: seq<string>): (y: int)
    ensures y == 0 || IsYear(y)
    ensures y != 0 <==> exists i :: 0 <= i < |lines| && YearOn(lines[i]) != 0
  {
    if lines == [] then 0
    else if YearOn(lines[0]) != 0 then YearOn(lines[0])
    else
      assert lines == [lines[0]] + lines[1..];
      FirstYear(lines[1..])
  }

  function FirstStation(lines: seq<string>): string {
    if lines == [] then [] else if StationOn(lines[0]) != [] then StationOn(lines[0]) else FirstStation(lines[1..])
  }

  ghost predicate FirstWhere(lines: seq<string>, on: string -> int, i: int) {
    0 <= i < |lines| && on(lines[i]) != 0 && forall j :: 0 <= j < i ==> on(lines[j]) == 0
  }

  /** Month and year are those of the first lines that give one. */
  lemma {:induction false} MonthAndYearAreFirst(lines: seq<string>)
    ensures FirstMonth(lines) != 0 ==>
              exists i :: FirstWhere(lines, MonthOn, i) && MonthOn(lines[i]) == FirstMonth(lines)
    ensures FirstYear(lines) != 0 ==>
              exists i :: FirstWhere(lines, YearOn, i) && YearOn(lines[i]) == FirstYear(lines)
  {
    if lines != [] {
      var rest := lines[1..];
      MonthAndYearAreFirst(rest);
      if MonthOn(lines[0]) != 0 {
        assert FirstWhere(lines, MonthOn, 0);
      } else if FirstMonth(rest) != 0 {
        var i :| FirstWhere(rest, MonthOn, i) && MonthOn(rest[i]) == FirstMonth(rest);
        FirstBehind(lines, MonthOn, i);
      }
      if YearOn(lines[0]) != 0 {
        assert FirstWhere(lines, YearOn, 0);
      } else if FirstYear(rest) != 0 {
        var i :| FirstWhere(rest, YearOn, i) && YearOn(rest[i]) == FirstYear(rest);
        FirstBehind(lines, YearOn, i);
      }
    }
  }

  lemma FirstBehind(lines: seq<string>, on: string -> int, i: int)
    requires lines != [] && on(lines[0]) == 0 && FirstWhere(lines[1..], on, i)
    ensures FirstWhere(lines, on, i + 1) && lines[i + 1] == lines[1..][i]
  {
    forall j | 0 <= j < i + 1 ensures on(lines[j]) == 0 {
      if j > 0 {
        assert lines[j] == lines[1..][j - 1];
      }
    }
  }

  // ---------------------------------------------------------------- selection

  /** What each row gives. */
  function Readings(rows: seq<string>): (rs: seq<Option<Reading>>)
    ensures |rs| == |rows| && forall i :: 0 <= i < |rs| ==> rs[i] == RowOf(rows[i])
  {
    assert forall i :: 0 <= i < |rows| ==> Each(rows, RowOf)[i] == RowOf(rows[i]) by {
      forall i | 0 <= i < |rows| ensures Each(rows, RowOf)[i] == RowOf(rows[i]) {
        EachIs(rows, RowOf, i);
      }
    }
    Each(rows, RowOf)
  }

  /** Reading `k` has the greatest day of all, and is the first to have it. */
  ghost predicate IsLatest(rs: seq<Option<Reading>>, k: int) {
    && 0 <= k < |rs| && rs[k].Some?
    && (forall j :: 0 <= j < k && rs[j].Some? ==> rs[j].value.day < rs[k].value.day)
    && (forall j :: k < j < |rs| && rs[j].Some? ==> rs[j].value.day <= rs[k].value.day)
  }

  function Better(best: Reading, r: Option<Reading>): Reading {
    if r.Some? && r.value.day > best.day then r.value else best
  }

  function Best(best: Reading, rs: seq<Option<Reading>>): Reading
    decreases |rs|
  {
    if rs == [] then best else Best(Better(best, rs[0]), rs[1..])
  }

  const NO_READING := Reading(0, 0, 0)

  /** Nothing beats `best`: no reading has a later day. */
  ghost predicate NoneAfter(best: Reading, rs: seq<Option<Reading>>) {
    forall j :: 0 <= j < |rs| && rs[j].Some? ==> rs[j].value.day <= best.day
  }

  lemma {:induction false} BestSoFar(best: Reading, rs: seq<Option<Reading>>)
    ensures var b := Best(best, rs);
            && best.day <= b.day && NoneAfter(b, rs)
            && (b == best || (b.day > best.day && exists k :: IsLatest(rs, k) && rs[k] == Some(b)))
    decreases |rs|
  {
    if rs != [] {
      var next, rest := Better(best, rs[0]), rs[1..];
      BestSoFar(next, rest);
      var b := Best(next, rest);
      assert rs == [rs[0]] + rest;
      if b != next {
        var k :| IsLatest(rest, k) && rest[k] == Some(b);
        LaterInRest(rs, k, next);
      } else if next != best {
        assert IsLatest(rs, 0);
      }
    }
  }

  lemma {:induction false} LaterInRest(rs: seq<Option<Reading>>, k: int, next: Reading)
    requires rs != [] && IsLatest(rs[1..], k) && rs[1..][k].value.day > next.day
    requires rs[0].Some? ==> rs[0].value.day <= next.day
    ensures IsLatest(rs, k + 1) && rs[k + 1] == rs[1..][k]
  {
    var rest := rs[1..];
    assert forall j :: 1 <= j < |rs| ==> rs[j] == rest[j - 1];
  }

  /** What the loop's running best ends up as: the latest row's reading, or nothing if no row has one. */
  lemma {:induction false} BestIsLatest(rows: seq<string>)
    ensures var rs := Readings(rows);
            && (Best(NO_READING, rs).day == 0 <==> forall j :: 0 <= j < |rs| ==> rs[j].None?)
            && (Best(NO_READING, rs).day != 0 ==>
                  1 <= Best(NO_READING, rs).day <= 31
                  && exists k :: IsLatest(rs, k) && rs[k] == Some(Best(NO_READING, rs)))
  {
    BestSoFar(NO_READING, Readings(rows));
  }

  // ---------------------------------------------------------------- the report

  datatype Report = Report(station: string, date: string, tmax: int, tmin: int, isPreliminary: bool, isCorrected: bool)

  datatype Result<+T> = Ok(value: T) | UnrecognizedLayout

  lemma {:induction false} FirstWordStarts(line: string)
    ensures LeftTrim(line) == [] ==> Tokens(line) == []
    ensures LeftTrim(line) != [] ==> Tokens(line) != [] && Tokens(line)[0][0] == LeftTrim(line)[0]
  {
    if line != [] && IsSpace(line[0]) {
      FirstWordStarts(line[1..]);
    }
  }

  /** Blank lines and rulers give no reading. */
  lemma RulerGivesNothing(line: string)
    requires LeftTrim(line) == [] || LeftTrim(line)[0] == '='
    ensures RowOf(line).None?
  {
    FirstWordStarts(line);
    if LeftTrim(line) != [] {
      NoNumber(Tokens(line)[0]);
    }
  }

  lemma NoNumber(word: string)
    requires word != [] && word[0] == '='
    ensures ReadInt(word).Invalid?
  {
    assert word[0..] == word;
    assert DigitRun(word) == 0;
  }

  method TrimmedStart(line: string) returns (i: nat)
    ensures i <= |line| && line[i..] == LeftTrim(line)
  {
    i := 0;
    assert line[0..] == line;
    while i < |line| && IsSpace(line[i])
      invariant i <= |line| && LeftTrim(line[i..]) == LeftTrim(line)
    {
      assert line[i..][1..] == line[i + 1..];
      i := i + 1;
    }
  }

  /** A line of the table: `ended` if it is a summary row, otherwise the better of the best reading so
      far and this row's. */
  method TableLine(line: string, best: Reading) returns (ended: bool, best': Reading)
    ensures ended <==> IsSummary(line)
    ensures !ended ==> best' == Better(best, RowOf(line))
  {
    best' := best;
    var s := TrimmedStart(line);
    var body := line[s..];
    if body == [] || body[0] == '=' {
      RulerGivesNothing(line);
      return false, best;
    }
    if "SM " <= body || "AV " <= body || "NOTES" <= body || "$$" <= body || "MAX(" <= body || "MISC" <= body {
      return true, best;
    }
    ended := false;
    var reading := ReadRow(line);
    if reading.Some? && reading.value.day > best.day {
      best' := reading.value;
    }
  }

  method ReadRow(line: string) returns (r: Option<Reading>)
    ensures r == RowOf(line)
  {
    var words := TokensOf(line);
    if |words| < 3 {
      return None;
    }
    var first := ReadInt(words[0]);
    if !first.Value? || first.value < 1 || first.value > 31 {
      return None;
    }
    var tmax, tmin := Temperature(words[1]), Temperature(words[2]);
    r := if tmax.Some? && tmin.Some? then Some(Reading(first.value, tmax.value, tmin.value)) else None;
  }

  datatype Scan = Scan(station: string, month: int, year: int, best: Reading)

  /** What is found in the end from where the parser stands. */
  function Found(st: Scan, lines: seq<string>, pastHeader: bool): Scan {
    var seen := Scanned(lines, pastHeader);
    Scan(if st.station != [] then st.station else FirstStation(seen),
         if st.month != 0 then st.month else FirstMonth(seen),
         if st.year != 0 then st.year else FirstYear(seen),
         Best(st.best, Readings(TableRows(lines, pastHeader))))
  }

  /** Station, month and year of one line, where still missing. */
  function Noted(st: Scan, line: string): Scan {
    st.(station := if st.station != [] then st.station else StationOn(line),
        month := if st.month != 0 then st.month else MonthOn(line),
        year := if st.year != 0 then st.year else YearOn(line))
  }

  method NoteLine(st: Scan, line: string) returns (st': Scan)
    ensures st' == Noted(st, line)
  {
    st' := st;
    if st.station == [] {
      st' := st'.(station := StationOn(line));
    }
    if st.month == 0 {
      var labelled := IFind(line, "MONTH:");
      if labelled.Some? {
        var m, end := MonthNum(line);
        st' := st'.(month := m);
      }
    }
    if st.year == 0 {
      var labelled := IFind(line, "YEAR:");
      if labelled.Some? {
        var y := YearIn(line);
        st' := st'.(year := y);
      }
    }
  }

  lemma ScannedCons(line: string, rest: seq<string>, pastHeader: bool)
    ensures pastHeader && IsSummary(line) ==>
              Scanned([line] + rest, pastHeader) == [line] && TableRows([line] + rest, pastHeader) == []
    ensures !(pastHeader && IsSummary(line)) ==>
              var more := pastHeader || IsDataHeader(line);
              && Scanned([line] + rest, pastHeader) == [line] + Scanned(rest, more)
              && TableRows([line] + rest, pastHeader) == (if pastHeader then [line] else []) + TableRows(rest, more)
  {
    assert ([line] + rest)[1..] == rest;
  }

  lemma BestCons(best: Reading, line: string, rows: seq<string>)
    ensures Best(best, Readings([line] + rows)) == Best(Better(best, RowOf(line)), Readings(rows))
  {
    assert ([line] + rows)[1..] == rows;
    EachCons(line, rows, RowOf);
  }

  lemma FoundAtSummary(st: Scan, line: string, rest: seq<string>)
    requires IsSummary(line)
    ensures Found(st, [line] + rest, true) == Noted(st, line)
  {
    ScannedCons(line, rest, true);
    FirstOfOne(line);
  }

  lemma FoundInTable(st: Scan, line: string, rest: seq<string>)
    requires !IsSummary(line)
    ensures Found(st, [line] + rest, true) == Found(Noted(st, line).(best := Better(st.best, RowOf(line))), rest, true)
  {
    ScannedCons(line, rest, true);
    FirstOfMore(line, Scanned(rest, true));
    BestCons(st.best, line, TableRows(rest, true));
  }

  lemma {:induction false} FoundBeforeTable(st: Scan, line: string, rest: seq<string>)
    ensures Found(st, [line] + rest, false) == Found(Noted(st, line), rest, IsDataHeader(line))
  {
    var more := IsDataHeader(line);
    ScannedCons(line, rest, false);
    FirstOfMore(line, Scanned(rest, more));
    NothingMore(TableRows(rest, more));
  }

  lemma FirstOfOne(line: string)
    ensures FirstMonth([line]) == MonthOn(line) && FirstYear([line]) == YearOn(line)
    ensures FirstStation([line]) == StationOn(line)
  {
  }

  lemma FirstOfMore(line: string, rest: seq<string>)
    ensures var all := [line] + rest;
            && FirstMonth(all) == (if MonthOn(line) != 0 then MonthOn(line) else FirstMonth(rest))
            && FirstYear(all) == (if YearOn(line) != 0 then YearOn(line) else FirstYear(rest))
            && FirstStation(all) == (if StationOn(line) != [] then StationOn(line) else FirstStation(rest))
  {
    assert ([line] + rest)[1..] == rest;
  }

  /** The body of the line loop. */
  method ScanLine(st: Scan, line: string, past: bool,
                  ghost rest: seq<string>) returns (ended: bool, st': Scan, past': bool)
    ensures ended ==> st' == Found(st, [line] + rest, past)
    ensures !ended ==> Found(st', rest, past') == Found(st, [line] + rest, past)
  {
    ended, past' := false, past;
    st' := NoteLine(st, line);
    if !past {
      FoundBeforeTable(st, line, rest);
      past' := IsDataHeader(line);
      return;
    }
    var best;
    ended, best := TableLine(line, st'.best);
    if ended {
      FoundAtSummary(st, line, rest);
    } else {
      FoundInTable(st, line, rest);
      st' := st'.(best := best);
    }
  }

  /** The line loop. */
  method ScanLines(lines: seq<string>) returns (st: Scan)
    ensures st == Found(Scan([], 0, 0, NO_READING), lines, false)
  {
    st := Scan([], 0, 0, NO_READING);
    ghost var goal := Found(st, lines, false);
    var past := false;
    var i := 0;
    assert lines[0..] == lines;
    while i < |lines|
      invariant i <= |lines| && Found(st, lines[i..], past) == goal
    {
      Regroup(lines[i..], []);
      assert lines[i..][1..] == lines[i + 1..];
      var ended;
      ended, st, past := ScanLine(st, lines[i], past, lines[i + 1..]);
      if ended {
        return;
      }
      i := i + 1;
    }
    NothingLeft(st, past);
  }

  lemma NothingLeft(st: Scan, past: bool)
    ensures Found(st, [], past) == st
  {
  }

  /** What a monthly table comes to: the first station, month and year of the scanned lines, and the
      temperatures of the latest row. */
  function Cf6Of(text: string): Result<Report> {
    ReportOf(Found(Scan([], 0, 0, NO_READING), Lines(text), false), IsPreliminary(text), IsCorrected(text))
  }

  predicate IsPreliminary(text: string) { ContainsAnyCase(text, "PRELIMINARY") }

  predicate IsCorrected(text: string) { ContainsAnyCase(text, "CORRECTED") || ContainsAnyCase(text, "...COR") }

  function ReportOf(st: Scan, preliminary: bool, corrected: bool): Result<Report> {
    if !(1 <= st.month <= 12) || !IsYear(st.year) || !(1 <= st.best.day <= 31) then UnrecognizedLayout
    else Ok(DatedReport(st, preliminary, corrected))
  }

  function DatedReport(st: Scan, preliminary: bool, corrected: bool): Report
    requires 0 <= st.year <= 9999 && 1 <= st.month <= 12 && 1 <= st.best.day <= 31
  {
    Report(if st.station == [] then [] else "K" + st.station, Date(st.year, st.month, st.best.day),
           st.best.tmax, st.best.tmin, preliminary, corrected)
  }

  /** THE CF6 PARSER. It succeeds exactly when the scanned lines name a month and a year and some table
      row gives a day with both temperatures; the report then carries the latest such row's
      temperatures and a well-formed date of that day. */
  method ParseCf6(text: string) returns (r: Result<Report>)
    ensures r == Cf6Of(text)
    ensures r.Ok? <==> Complete(Lines(text))
    ensures r.Ok? ==> SelectsLatest(Lines(text), r.value) && |r.value.date| == 10
    ensures r.Ok? ==> r.value.isPreliminary == ContainsAnyCase(text, "PRELIMINARY")
    ensures r.Ok? ==> r.value.isCorrected == (ContainsAnyCase(text, "CORRECTED") || ContainsAnyCase(text, "...COR"))
  {
    r := ReadTable(text);
    Cf6IsLatest(text);
  }

  method ReadTable(text: string) returns (r: Result<Report>)
    ensures r == Cf6Of(text)
  {
    var preliminary, corrected := Flags(text);
    var lines := LinesOf(text);
    var st := ScanLines(lines);
    FoundIsADay(lines);
    if st.month == 0 || st.year == 0 || st.best.day == 0 {
      return UnrecognizedLayout;
    }
    r := Ok(Report(if st.station == [] then [] else "K" + st.station, Date(st.year, st.month, st.best.day),
                   st.best.tmax, st.best.tmin, preliminary, corrected));
  }

  method Flags(text: string) returns (preliminary: bool, corrected: bool)
    ensures preliminary == IsPreliminary(text) && corrected == IsCorrected(text)
  {
    var early := IFind(text, "PRELIMINARY");
    var late := IFind(text, "CORRECTED");
    var reissued := IFind(text, "...COR");
    preliminary, corrected := early.Some?, late.Some? || reissued.Some?;
  }

  lemma FoundIsADay(lines: seq<string>)
    ensures var st := Found(Scan([], 0, 0, NO_READING), lines, false);
            0 <= st.best.day <= 31 && 0 <= st.month <= 12 && (st.year == 0 || IsYear(st.year))
  {
    BestIsLatest(TableRows(lines, false));
  }

  lemma Cf6IsLatest(text: string)
    ensures Cf6Of(text).Ok? <==> Complete(Lines(text))
    ensures Cf6Of(text).Ok? ==> SelectsLatest(Lines(text), Cf6Of(text).value) && |Cf6Of(text).value.date| == 10
  {
    var lines := Lines(text);
    var st := Found(Scan([], 0, 0, NO_READING), lines, false);
    CompleteMeansFound(lines);
    FoundIsADay(lines);
    if Cf6Of(text).Ok? {
      FoundIsLatest(lines, st, Cf6Of(text).value);
    }
  }

  lemma FoundIsLatest(lines: seq<string>, st: Scan, r: Report)
    requires st == Found(Scan([], 0, 0, NO_READING), lines, false)
    requires st.month != 0 && st.year != 0 && 1 <= st.best.day <= 31
    requires r == DatedReport(st, r.isPreliminary, r.isCorrected)
    ensures SelectsLatest(lines, r) && |r.date| == 10
  {
    BestIsLatest(TableRows(lines, false));
    FoundFromStart(lines);
    ReportIsLatest(Scanned(lines, false), Readings(TableRows(lines, false)), st.best, r);
  }

  /** A month and a year are named on the scanned lines and some table row gives a reading. */
  ghost predicate Complete(lines: seq<string>) {
    var seen, rows := Scanned(lines, false), TableRows(lines, false);
    && (exists i :: 0 <= i < |seen| && MonthOn(seen[i]) != 0)
    && (exists i :: 0 <= i < |seen| && YearOn(seen[i]) != 0)
    && (exists j :: 0 <= j < |rows| && RowOf(rows[j]).Some?)
  }

  /** The report is that of the latest row, dated with the first month and year named. */
  ghost predicate SelectsLatest(lines: seq<string>, r: Report) {
    var seen, rs := Scanned(lines, false), Readings(TableRows(lines, false));
    && r.station == (if FirstStation(seen) == [] then [] else "K" + FirstStation(seen))
    && exists k :: IsLatest(rs, k) && Reports(r, FirstYear(seen), FirstMonth(seen), rs[k].value)
  }

  ghost predicate Reports(r: Report, year: int, month: int, reading: Reading) {
    && IsYear(year) && 1 <= month <= 12 && 1 <= reading.day <= 31
    && r.date == Date(year, month, reading.day)
    && r.tmax == reading.tmax && r.tmin == reading.tmin
  }

  lemma CompleteMeansFound(lines: seq<string>)
    ensures var st := Found(Scan([], 0, 0, NO_READING), lines, false);
            Complete(lines) <==> st.month != 0 && st.year != 0 && st.best.day != 0
  {
    BestIsLatest(TableRows(lines, false));
  }

  lemma {:induction false} ReportIsLatest(seen: seq<string>, rs: seq<Option<Reading>>, best: Reading, r: Report)
    requires FirstMonth(seen) != 0 && FirstYear(seen) != 0 && 1 <= best.day <= 31
    requires exists k :: IsLatest(rs, k) && rs[k] == Some(best)
    requires r.date == Date(FirstYear(seen), FirstMonth(seen), best.day) && r.tmax == best.tmax && r.tmin == best.tmin
    ensures exists k :: IsLatest(rs, k) && Reports(r, FirstYear(seen), FirstMonth(seen), rs[k].value)
  {
    var k :| IsLatest(rs, k) && rs[k] == Some(best);
    assert Reports(r, FirstYear(seen), FirstMonth(seen), rs[k].value);
  }

  /** From nothing noted yet, what is found is what the whole text gives. */
  lemma {:induction false} FoundFromStart(lines: seq<string>)
    ensures var (st, seen) := (Found(Scan([], 0, 0, NO_READING), lines, false), Scanned(lines, false));
            && st.station == FirstStation(seen) && st.month == FirstMonth(seen) && st.year == FirstYear(seen)
            && st.best == Best(NO_READING, Readings(TableRows(lines, false)))
  {
  }
}
