/** Daily climate reports as they are printed, and the proof that the parser reads them back: what the
    lines look like is described letter by letter, without the parser's own notions. */
module CliPrinting {
  import opened MachineInts
  import opened Sequences
  import opened Text
  import opened Decimal
  import opened CliScanning
  import opened PrintedLines
  import opened CliReports

  // ---------------------------------------------------------------- how lines are printed

  function StationLine(head: string, station: string, tail: string): string { head + " " + station + tail }

  /** K and three capitals after a blank, with no K after an earlier blank. */
  ghost predicate PrintsStation(line: string, station: string) {
    && |station| == 4 && station[0] == 'K' && (forall i :: 1 <= i < 4 ==> 'A' <= station[i] <= 'Z')
    && exists head, tail :: line == StationLine(head, station, tail) && NoBlankK(head)
  }

  ghost predicate NoBlankK(s: string) {
    forall i :: 0 <= i < |s| - 1 ==> !(s[i] == ' ' && s[i + 1] == 'K')
  }

  /** No K follows a blank, or three capitals do not follow the first that does. */
  ghost predicate PrintsNoStation(line: string) {
    || NoBlankK(line)
    || exists i :: FirstBlankK(line, i) && !(i + 5 <= |line| && Capitals(line[i + 2..i + 5]))
  }

  ghost predicate FirstBlankK(line: string, i: int) {
    0 <= i < |line| - 1 && line[i] == ' ' && line[i + 1] == 'K' && NoBlankK(line[..i + 1])
  }

  function DateLine(head: string, month: string, gap: string, day: nat, comma: string, year: nat,
                    tail: string): string {
    head + "FOR " + month + (gap + (Print(day) + (comma + (Print(year) + tail))))
  }

  /** FOR, a month's name, the day and the year, with no earlier word that begins like a month. */
  ghost predicate PrintsDate(line: string, year: nat, month: nat, day: nat) {
    && 1900 <= year <= 2200 && 1 <= month <= 12 && 1 <= day <= 31
    && exists head, name, gap, comma, tail ::
         line == DateLine(head, name, gap, day, comma, year, tail) && DateParts(head, name, month, gap, comma, tail)
  }

  ghost predicate DateParts(head: string, name: string, month: nat, gap: string, comma: string, tail: string)
    requires 1 <= month <= 12
  {
    && NoMonthWord(head + "FOR ") && |name| >= 3 && (forall i :: 0 <= i < |name| ==> IsAlpha(name[i]))
    && OccursAt(name, MONTHS[month - 1], 0)
    && gap != [] && !IsAlpha(gap[0]) && NoDigits(gap) && comma != [] && NoDigits(comma)
    && (tail != [] ==> !('0' <= tail[0] <= '9'))
  }

  ghost predicate PrintsNoDate(line: string) {
    !Mentions(line, "FOR ") || NoDigits(line) || NoMonthWord(line)
  }

  function NumberLine(head: string, keyword: string, gap: string, n: int, tail: string): string {
    head + keyword + (gap + (Print(n) + tail))
  }

  /** A keyword and after it a number, with nothing that could be part of another before it. */
  ghost predicate PrintsNumber(line: string, keyword: string, n: int)
    requires keyword != []
  {
    FitsInt(n) && exists head, gap, tail ::
      line == NumberLine(head, keyword, gap, n, tail) && NumberParts(head, keyword, gap, tail)
  }

  ghost predicate NumberParts(head: string, keyword: string, gap: string, tail: string)
    requires keyword != []
  {
    && (forall i :: 0 <= i < |head| ==> !SameLetter(head[i], keyword[0]))
    && NoDigits(gap) && (forall i :: 0 <= i < |gap| ==> gap[i] != '-')
    && (tail != [] ==> !('0' <= tail[0] <= '9'))
  }

  ghost predicate Closes(line: string) {
    !Mentions(line, "TEMPERATURE")
    && (Mentions(line, "PRECIPITATION") || Mentions(line, "WIND") || Mentions(line, "RELATIVE"))
  }

  // ---------------------------------------------------------------- what is read off them

  lemma KindIsRead(line: string)
    ensures KindOf(line).Heading? <==> Mentions(line, "TEMPERATURE")
    ensures KindOf(line).Closing? <==> Closes(line)
  {
    MentionIsFound(line, "TEMPERATURE");
    MentionIsFound(line, "PRECIPITATION");
    MentionIsFound(line, "WIND");
    MentionIsFound(line, "RELATIVE");
  }

  lemma BlankKAt(line: string, j: nat)
    requires j <= |line|
    ensures " K" <= line[j..] <==> j + 1 < |line| && line[j] == ' ' && line[j + 1] == 'K'
  {
    var rest := line[j..];
    assert |rest| >= 2 ==> rest[..2] == [line[j], line[j + 1]];
  }

  lemma BlankKIsFound(line: string, i: nat)
    requires FirstBlankK(line, i)
    ensures Find(line, " K") == Some(i)
  {
    BlankKAt(line, i);
    forall j | 0 <= j < i ensures !(" K" <= line[j..]) {
      BlankKAt(line, j);
      assert !(line[..i + 1][j] == ' ' && line[..i + 1][j + 1] == 'K');
    }
    FindFirst(line, " K", i);
  }

  lemma NoBlankKIsFound(line: string)
    requires NoBlankK(line)
    ensures Find(line, " K").None?
  {
    FoundIsThere(line, " K");
    var r := Find(line, " K");
    if r.Some? {
      BlankKAt(line, r.value);
      assert false;
    }
  }

  lemma StationIsRead(line: string, station: string)
    requires PrintsStation(line, station)
    ensures StationOn(line) == station
  {
    var head, tail :| line == StationLine(head, station, tail) && NoBlankK(head);
    var i := |head|;
    assert line[..i + 1] == head + " ";
    assert FirstBlankK(line, i);
    BlankKIsFound(line, i);
    assert line[i + 1..i + 5] == station;
    assert forall j :: 1 <= j < 4 ==> line[i + 1 + j] == station[j];
  }

  lemma NoStationIsRead(line: string)
    requires PrintsNoStation(line)
    ensures StationOn(line) == []
  {
    if NoBlankK(line) {
      NoBlankKIsFound(line);
    } else {
      var i :| FirstBlankK(line, i) && !(i + 5 <= |line| && Capitals(line[i + 2..i + 5]));
      BlankKIsFound(line, i);
      if i + 5 <= |line| {
        assert line[i + 2..i + 5] == [line[i + 2], line[i + 3], line[i + 4]];
      }
    }
  }

  lemma DateIsRead(line: string, year: nat, month: nat, day: nat)
    requires PrintsDate(line, year, month, day)
    ensures DateOn(line) == DateText(year, month, day)
  {
    var head, name, gap, comma, tail :|
      line == DateLine(head, name, gap, day, comma, year, tail) && DateParts(head, name, month, gap, comma, tail);
    var after := gap + (Print(day) + (comma + (Print(year) + tail)));
    MonthAfterForIsRead(head, name, after, month);
    DayAndYearAreRead(gap, day, comma, year, tail);
    DateIsText(year, month, day);
  }

  lemma MonthAfterForIsRead(head: string, name: string, after: string, month: nat)
    requires 1 <= month <= 12 && NoMonthWord(head + "FOR ")
    requires |name| >= 3 && (forall i :: 0 <= i < |name| ==> IsAlpha(name[i])) && OccursAt(name, MONTHS[month - 1], 0)
    requires after != [] && !IsAlpha(after[0])
    ensures var line := head + "FOR " + name + after;
            ContainsAnyCase(line, "FOR ") && MonthOf(line) == month && AfterMonth(line) == after
  {
    var before := head + "FOR ";
    Assoc(before, name, after);
    KeywordIsThere(head, "FOR ", name + after);
    MonthNameIsRead(name, month);
    MonthIsRead(before, name, after, month);
  }

  lemma DayAndYearAreRead(gap: string, day: nat, comma: string, year: nat, tail: string)
    requires 1 <= day <= 31 && 1900 <= year <= 2200
    requires NoDigits(gap) && comma != [] && NoDigits(comma) && (tail != [] ==> !('0' <= tail[0] <= '9'))
    ensures var after := gap + (Print(day) + (comma + (Print(year) + tail)));
            FirstRun(after, 1, 31) == day && FirstRun(after, 1900, 2200) == year
  {
    var afterDay := comma + (Print(year) + tail);
    RunIsAhead(gap, Print(day) + afterDay, 1, 31);
    RunIsAhead(gap, Print(day) + afterDay, 1900, 2200);
    RunIsRead(day, afterDay, 1, 31);
    RunIsRead(day, afterDay, 1900, 2200);
    RunIsAhead(comma, Print(year) + tail, 1900, 2200);
    RunIsRead(year, tail, 1900, 2200);
  }

  lemma {:induction false} NoDigitsAfterMonth(line: string)
    requires NoDigits(line)
    ensures NoDigits(AfterMonth(line))
    decreases |line|
  {
    if line != [] {
      if !IsAlpha(line[0]) {
        NoDigitsAfterMonth(line[1..]);
      } else {
        NoDigitsAfterMonth(line[AlphaRun(line)..]);
      }
    }
  }

  lemma NoDateIsRead(line: string)
    requires PrintsNoDate(line)
    ensures DateOn(line) == []
  {
    MentionIsFound(line, "FOR ");
    if NoDigits(line) {
      NoDigitsAfterMonth(line);
      NoRunWithoutDigits(AfterMonth(line), 1, 31);
    } else if NoMonthWord(line) {
      EarlierWordsAreNone(line, line);
      MonthIsOfWholeWord(line);
    }
  }

  lemma {:induction false} NumberIsAhead(gap: string, rest: string)
    requires NoDigits(gap) && forall i :: 0 <= i < |gap| ==> gap[i] != '-'
    ensures FirstInt(gap + rest) == FirstInt(rest)
  {
    if gap == [] {
      assert gap + rest == rest;
    } else {
      assert (gap + rest)[1..] == gap[1..] + rest;
      NumberIsAhead(gap[1..], rest);
    }
  }

  lemma NumberIsRead(line: string, keyword: string, n: int)
    requires keyword != [] && 'A' <= keyword[0] <= 'Z' && PrintsNumber(line, keyword, n)
    ensures IntAfter(line, keyword) == Some(n)
  {
    var head, gap, tail :| line == NumberLine(head, keyword, gap, n, tail) && NumberParts(head, keyword, gap, tail);
    var rest := gap + (Print(n) + tail);
    forall i | 0 <= i < |head| ensures Upper(head[i]) != keyword[0] {
      assert !SameLetter(head[i], keyword[0]);
    }
    KeywordIsFirst(head, keyword, rest);
    assert line[|head| + |keyword|..] == rest;
    NumberIsAhead(gap, Print(n) + tail);
    ReadPrintedBefore(n, tail);
    NumberStarts(n, tail);
  }

  lemma NumberStarts(n: int, tail: string)
    ensures StartsToken(Print(n) + tail)
  {
    PrintedDigits(if n < 0 then -n else n);
  }

  lemma NoNumberIsRead(line: string, keyword: string)
    requires !Mentions(line, keyword)
    ensures IntAfter(line, keyword).None?
  {
    MentionIsFound(line, keyword);
  }

  // ---------------------------------------------------------------- the report

  datatype Climate = Climate(station: string, year: nat, month: nat, day: nat, tmax: int, tmin: int)

  /** Line `s` is the first to print a station, and line `d` the first to print a date. */
  ghost predicate PrintsHead(lines: seq<string>, s: nat, d: nat, c: Climate) {
    && s < |lines| && PrintsStation(lines[s], c.station) && (forall i :: 0 <= i < s ==> PrintsNoStation(lines[i]))
    && d < |lines| && PrintsDate(lines[d], c.year, c.month, c.day)
    && (forall i :: 0 <= i < d ==> PrintsNoDate(lines[i]))
  }

  /** Line `h` is the first temperature heading. */
  ghost predicate FirstHeading(lines: seq<string>, h: nat) {
    h < |lines| && Mentions(lines[h], "TEMPERATURE") && forall i :: 0 <= i < h ==> !Mentions(lines[i], "TEMPERATURE")
  }

  /** After that heading, and before any line that closes its section, line `k` is the first with the
      keyword, and prints the number after it. Later headings count for nothing. */
  ghost predicate PrintsFirst(lines: seq<string>, h: nat, k: nat, keyword: string, n: int)
    requires keyword != []
  {
    && FirstHeading(lines, h) && h < k < |lines| && PrintsNumber(lines[k], keyword, n)
    && !Mentions(lines[k], "TEMPERATURE") && (forall i :: h < i <= k ==> !Closes(lines[i]))
    && forall i :: h < i < k ==> Mentions(lines[i], "TEMPERATURE") || !Mentions(lines[i], keyword)
  }

  /** Line `k` closes the section of that heading before the keyword, and no other section follows. */
  ghost predicate ShutBefore(lines: seq<string>, h: nat, k: nat, keyword: string) {
    && FirstHeading(lines, h) && h < k < |lines| && Closes(lines[k])
    && (forall i :: h < i < k ==> Mentions(lines[i], "TEMPERATURE") || !Mentions(lines[i], keyword))
    && forall i :: k < i < |lines| ==> !Mentions(lines[i], "TEMPERATURE")
  }

  lemma FirstTextIs(texts: seq<string>, n: nat, k: nat)
    requires n <= |texts| && FirstGiven(texts, n, k)
    ensures FirstText(texts, n) == texts[k]
  {
    TextIsFirst(texts, n);
    var j :| FirstGiven(texts, n, j) && texts[j] == FirstText(texts, n);
  }

  lemma TemperatureIs(kinds: seq<Kind>, given: seq<Option<int>>, n: nat, k: nat)
    requires n <= |kinds| == |given| && k < n && FirstTo(kinds, given, n, k, given[k])
    ensures Temperature(kinds, given, n) == given[k]
  {
    TemperatureIsFirst(kinds, given, n);
    var t := Temperature(kinds, given, n);
    var j :| FirstTo(kinds, given, n, j, t);
  }

  lemma HeadIsRead(lines: seq<string>, s: nat, d: nat, c: Climate)
    requires PrintsHead(lines, s, d, c)
    ensures FirstText(StationsOf(SaysAll(lines)), |lines|) == c.station
    ensures FirstText(DatesOf(SaysAll(lines)), |lines|) == DateText(c.year, c.month, c.day)
  {
    var all := SaysAll(lines);
    forall i | 0 <= i < |lines| ensures all[i] == SaysOf(lines[i]) {
      assert SaysAt(all, lines, i);
    }
    StationIsRead(lines[s], c.station);
    forall i | 0 <= i < s ensures StationsOf(all)[i] == [] {
      NoStationIsRead(lines[i]);
    }
    FirstTextIs(StationsOf(all), |lines|, s);
    DateIsRead(lines[d], c.year, c.month, c.day);
    forall i | 0 <= i < d ensures DatesOf(all)[i] == [] {
      NoDateIsRead(lines[i]);
    }
    FirstTextIs(DatesOf(all), |lines|, d);
  }

  ghost predicate KindsAre(kinds: seq<Kind>, lines: seq<string>) {
    && |kinds| == |lines|
    && forall i :: 0 <= i < |kinds| ==>
         && (kinds[i].Heading? <==> Mentions(lines[i], "TEMPERATURE"))
         && (kinds[i].Closing? <==> Closes(lines[i]))
  }

  lemma KindsAreRead(lines: seq<string>)
    ensures KindsAre(KindsOf(SaysAll(lines)), lines)
  {
    var all := SaysAll(lines);
    forall i | 0 <= i < |lines|
      ensures KindsOf(all)[i].Heading? <==> Mentions(lines[i], "TEMPERATURE")
      ensures KindsOf(all)[i].Closing? <==> Closes(lines[i])
    {
      assert SaysAt(all, lines, i);
      KindIsRead(lines[i]);
    }
  }

  /** Nothing is open up to the first heading, and something is until a line closes it. */
  lemma OpenFromHeading(kinds: seq<Kind>, lines: seq<string>, h: nat, i: nat)
    requires KindsAre(kinds, lines) && FirstHeading(lines, h) && i <= |kinds|
    ensures i <= h ==> !Open(kinds, i)
    ensures h < i && (forall j :: h < j < i ==> !Closes(lines[j])) ==> Open(kinds, i)
  {
    SectionHasHeading(kinds, i);
    if i <= h {
      forall j ensures !HeadingReaches(kinds, j, i) {
        assert 0 <= j < i ==> !Mentions(lines[j], "TEMPERATURE");
      }
    } else if forall j :: h < j < i ==> !Closes(lines[j]) {
      assert HeadingReaches(kinds, h, i);
    }
  }

  /** The column of what lines give for a keyword. */
  ghost predicate Gives(given: seq<Option<int>>, lines: seq<string>, keyword: string) {
    |given| == |lines| && forall i :: 0 <= i < |given| ==> given[i] == IntAfter(lines[i], keyword)
  }

  lemma FirstNumberIsRead(kinds: seq<Kind>, given: seq<Option<int>>, lines: seq<string>, h: nat, k: nat,
                          keyword: string, n: int)
    requires KindsAre(kinds, lines) && Gives(given, lines, keyword)
    requires keyword != [] && 'A' <= keyword[0] <= 'Z' && PrintsFirst(lines, h, k, keyword, n)
    ensures Temperature(kinds, given, |lines|) == Some(n)
  {
    NumberIsRead(lines[k], keyword, n);
    OpenFromHeading(kinds, lines, h, k);
    forall j | 0 <= j < k && kinds[j].Plain? && Open(kinds, j) ensures given[j].None? {
      OpenFromHeading(kinds, lines, h, j);
      assert j > h;
      NoNumberIsRead(lines[j], keyword);
    }
    assert FirstTo(kinds, given, |lines|, k, given[k]);
    TemperatureIs(kinds, given, |lines|, k);
  }

  lemma NoNumberInShutSection(kinds: seq<Kind>, given: seq<Option<int>>, lines: seq<string>, h: nat, k: nat,
                              keyword: string)
    requires KindsAre(kinds, lines) && Gives(given, lines, keyword)
    requires ShutBefore(lines, h, k, keyword)
    ensures Temperature(kinds, given, |lines|).None?
  {
    forall j | 0 <= j < |lines| && kinds[j].Plain? && Open(kinds, j) ensures given[j].None? {
      OpenFromHeading(kinds, lines, h, j);
      ClosedFrom(kinds, lines, k, j);
      assert h < j < k;
      NoNumberIsRead(lines[j], keyword);
    }
    TemperatureIsFirst(kinds, given, |lines|);
  }

  lemma {:induction false} ClosedFrom(kinds: seq<Kind>, lines: seq<string>, k: nat, j: nat)
    requires KindsAre(kinds, lines) && k < |lines| && Closes(lines[k]) && j <= |lines|
    requires forall i :: k < i < |lines| ==> !Mentions(lines[i], "TEMPERATURE")
    ensures j > k ==> !Open(kinds, j)
  {
    if j > k + 1 {
      ClosedFrom(kinds, lines, k, j - 1);
    }
  }

  lemma ColumnsAreGiven(lines: seq<string>)
    ensures Gives(MaximaOf(SaysAll(lines)), lines, "MAXIMUM") && Gives(MinimaOf(SaysAll(lines)), lines, "MINIMUM")
  {
    var all := SaysAll(lines);
    forall i | 0 <= i < |lines|
      ensures MaximaOf(all)[i] == IntAfter(lines[i], "MAXIMUM") && MinimaOf(all)[i] == IntAfter(lines[i], "MINIMUM")
    {
      assert SaysAt(all, lines, i);
    }
  }

  /** ROUND TRIP. Whatever other lines surround them, a report's station, date, maximum and minimum are
      read back: each from the first line that prints it, the temperatures from the first section. */
  lemma PrintedReportIsParsed(lines: seq<string>, cr: bool, s: nat, d: nat, h: nat, x: nat, n: nat, c: Climate)
    requires forall i :: 0 <= i < |lines| ==> Cuttable(lines[i], cr)
    requires PrintsHead(lines, s, d, c)
    requires PrintsFirst(lines, h, x, "MAXIMUM", c.tmax) && PrintsFirst(lines, h, n, "MINIMUM", c.tmin)
    ensures var text := PrintLines(lines, cr);
            CliOf(text) == Cli(Report(c.station, DateText(c.year, c.month, c.day), Some(c.tmax), Some(c.tmin),
                                      Mentions(text, "CORRECTED") || Mentions(text, "...COR")))
  {
    var all, text := SaysAll(lines), PrintLines(lines, cr);
    LinesOfPrinted(lines, cr);
    MentionIsFound(text, "CORRECTED");
    MentionIsFound(text, "...COR");
    HeadIsRead(lines, s, d, c);
    KindsAreRead(lines);
    ColumnsAreGiven(lines);
    FirstNumberIsRead(KindsOf(all), MaximaOf(all), lines, h, x, "MAXIMUM", c.tmax);
    FirstNumberIsRead(KindsOf(all), MinimaOf(all), lines, h, n, "MINIMUM", c.tmin);
  }

  /** A line about rain, wind or humidity before them ends the section: the temperatures behind it are
      not taken. */
  lemma ShutSectionGivesNothing(lines: seq<string>, cr: bool, s: nat, d: nat, h: nat, k: nat, c: Climate)
    requires forall i :: 0 <= i < |lines| ==> Cuttable(lines[i], cr)
    requires PrintsHead(lines, s, d, c)
    requires ShutBefore(lines, h, k, "MAXIMUM") && ShutBefore(lines, h, k, "MINIMUM")
    ensures var text := PrintLines(lines, cr);
            CliOf(text) == Cli(Report(c.station, DateText(c.year, c.month, c.day), None, None,
                                      Mentions(text, "CORRECTED") || Mentions(text, "...COR")))
  {
    var all, text := SaysAll(lines), PrintLines(lines, cr);
    LinesOfPrinted(lines, cr);
    MentionIsFound(text, "CORRECTED");
    MentionIsFound(text, "...COR");
    HeadIsRead(lines, s, d, c);
    KindsAreRead(lines);
    ColumnsAreGiven(lines);
    NoNumberInShutSection(KindsOf(all), MaximaOf(all), lines, h, k, "MAXIMUM");
    NoNumberInShutSection(KindsOf(all), MinimaOf(all), lines, h, k, "MINIMUM");
  }
}
