/** The daily climate report (CLI): keyword lines, with temperatures taken only from inside a
    temperature section; and the choice between this layout and CF6. */
module CliReports {
  import opened MachineInts
  import opened Text
  import opened Decimal
  import opened CliScanning
  import Cf6Report

  // ---------------------------------------------------------------- what one line says

  /** The first place where an integer that fits 32 bits can be read. */
  function FirstInt(s: string): (r: Option<int>)
    ensures r.Some? ==> FitsInt(r.value)
  {
    if s == [] then None
    else if StartsToken(s) && ReadInt(s).Value? then Some(ReadInt(s).value)
    else FirstInt(s[1..])
  }

  predicate StartsToken(s: string) { s != [] && (IsDigit(s[0]) || (s[0] == '-' && |s| > 1 && IsDigit(s[1]))) }

  /** A minus sign, if there is one, and all the digits after it, however many. */
  function TokenValue(s: string): int
    requires StartsToken(s)
  {
    if s[0] == '-' then 0 - ValueOf(s[1..][..DigitRun(s[1..])]) else ValueOf(s[..DigitRun(s)])
  }

  /** What the search is named for: the first integer token of the line. */
  function FirstToken(s: string): Option<int> {
    if s == [] then None else if StartsToken(s) then Some(TokenValue(s)) else FirstToken(s[1..])
  }

  lemma TokenIsRead(s: string)
    requires StartsToken(s)
    ensures ReadInt(s).Value? <==> FitsInt(TokenValue(s))
    ensures ReadInt(s).Value? ==> ReadInt(s).value == TokenValue(s)
  {
    assert s[0..] == s;
  }

  /** The first token is what is found if and only if it fits 32 bits, or there is none. */
  lemma {:induction false} FirstTokenIsFound(s: string)
    ensures FirstInt(s) == FirstToken(s) <==> (FirstToken(s).Some? ==> FitsInt(FirstToken(s).value))
  {
    if StartsToken(s) {
      TokenIsRead(s);
    } else if s != [] {
      FirstTokenIsFound(s[1..]);
    }
  }

  /** A number that does not fit is read again from its next digit on, until what is left fits. */
  lemma LongNumberIsCut()
    ensures FirstToken("9999999999") == Some(9999999999)
    ensures FirstInt("9999999999") == Some(999999999)
  {
    var s := "9999999999";
    DigitRunBefore(s, []);
    TenNines();
    assert s + [] == s && s[1..] + [] == s[1..] && s[..10] == s && s[1..] == "999999999" && s[1..][..9] == s[1..];
    TokenIsRead(s);
    DigitRunBefore(s[1..], []);
    TokenIsRead(s[1..]);
  }

  lemma TenNines()
    ensures ValueOf("999999999") == 999999999 && ValueOf("9999999999") == 9999999999
  {
    assert ValueOf("99") == 99;
    assert ValueOf("9999") == 9999 by { assert "9999"[..3] == "999" && "999"[..2] == "99"; }
    assert ValueOf("999999") == 999999 by { assert "999999"[..5] == "99999" && "99999"[..4] == "9999"; }
    assert ValueOf("99999999") == 99999999 by { assert "99999999"[..7] == "9999999" && "9999999"[..6] == "999999"; }
    assert "9999999999"[..9] == "999999999" && "999999999"[..8] == "99999999";
  }

  method ScanFirstInt(s: string) returns (r: Option<int>)
    ensures r == FirstInt(s)
  {
    assert s[0..] == s;
    for i := 0 to |s|
      invariant FirstInt(s[i..]) == FirstInt(s)
    {
      assert s[i..][1..] == s[i + 1..];
      if IsDigit(s[i]) || (s[i] == '-' && i + 1 < |s| && IsDigit(s[i + 1])) {
        var read := ReadInt(s[i..]);
        if read.Value? {
          return Some(read.value);
        }
      }
    }
    r := None;
  }

  /** The integer after a keyword, letter case aside. */
  function IntAfter(line: string, keyword: string): Option<int> {
    match FindAnyCase(line, keyword)
    case None => None
    case Some(p) => FirstInt(line[p + |keyword|..])
  }

  datatype Kind = Heading | Closing | Plain

  /** A heading opens a temperature section; some other keywords close one. */
  function KindOf(line: string): Kind {
    if ContainsAnyCase(line, "TEMPERATURE") then Heading
    else if ContainsAnyCase(line, "PRECIPITATION") || ContainsAnyCase(line, "WIND") || ContainsAnyCase(line, "RELATIVE")
    then Closing
    else Plain
  }

  /** The identifier after the first blank followed by K: K and three capitals. */
  function StationOn(line: string): string {
    match Find(line, " K")
    case None => []
    case Some(p) =>
      if p + 5 <= |line| && IsUpper(line[p + 2]) && IsUpper(line[p + 3]) && IsUpper(line[p + 4])
      then line[p + 1..p + 5] else []
  }

  /** A line with FOR, a month, and after it a day and a year gives a date. */
  function DateOn(line: string): (d: string)
    ensures d == [] || |d| == 10
  {
    var tail := AfterMonth(line);
    var day, year := FirstRun(tail, 1, 31), FirstRun(tail, 1900, 2200);
    if ContainsAnyCase(line, "FOR ") && MonthOf(line) != 0 && day != 0 && year != 0
    then Date(year, MonthOf(line), day) else []
  }

  method ScanDate(line: string) returns (d: string)
    ensures d == DateOn(line)
  {
    var marked := IFind(line, "FOR ");
    var month, end := MonthNum(line);
    if marked.None? || month == 0 {
      return [];
    }
    var tail := line[end..];
    var day, year := ScanDayAndYear(tail);
    d := if day != 0 && year != 0 then Date(year, month, day) else [];
  }

  /** One pass over the runs of digits: the first that is a day, and the first that is a year. */
  method ScanDayAndYear(tail: string) returns (day: int, year: int)
    ensures day == FirstRun(tail, 1, 31) && year == FirstRun(tail, 1900, 2200)
  {
    day, year := 0, 0;
    var p: nat := 0;
    assert tail[0..] == tail;
    while p < |tail|
      invariant (if day != 0 then day else RunFrom(tail, p, 1, 31)) == FirstRun(tail, 1, 31)
      invariant (if year != 0 then year else RunFrom(tail, p, 1900, 2200)) == FirstRun(tail, 1900, 2200)
      decreases |tail| - p
    {
      p, day, year := NoteRun(tail, p, day, year);
    }
    assert p == |tail| ==> tail[p..] == [];
  }

  method NoteRun(tail: string, p: nat, day: int, year: int) returns (p': nat, day': int, year': int)
    requires p < |tail|
    ensures p < p'
    ensures (if day' != 0 then day' else RunFrom(tail, p', 1, 31)) == if day != 0 then day else RunFrom(tail, p, 1, 31)
    ensures (if year' != 0 then year' else RunFrom(tail, p', 1900, 2200)) ==
            if year != 0 then year else RunFrom(tail, p, 1900, 2200)
  {
    var from, to := NextRun(tail, p);
    p', day', year' := to + 1, day, year;
    if to > from {
      var v := RunValue(tail[from..to]);
      if day == 0 && 1 <= v <= 31 {
        day' := v;
      } else if year == 0 && 1900 <= v <= 2200 {
        year' := v;
      }
    }
  }

  // ---------------------------------------------------------------- what the report says

  /** Everything the report takes from one line. */
  datatype Says = Says(kind: Kind, station: string, date: string, tmax: Option<int>, tmin: Option<int>)

  function SaysOf(line: string): Says {
    Says(KindOf(line), StationOn(line), DateOn(line), IntAfter(line, "MAXIMUM"), IntAfter(line, "MINIMUM"))
  }

  ghost predicate SaysAt(all: seq<Says>, lines: seq<string>, i: nat)
    requires i < |all| == |lines|
  {
    all[i] == SaysOf(lines[i])
  }

  function SaysAll(lines: seq<string>): (all: seq<Says>)
    ensures |all| == |lines| && forall i :: 0 <= i < |all| ==> SaysAt(all, lines, i)
  {
    seq(|lines|, i requires 0 <= i < |lines| => SaysOf(lines[i]))
  }

  function Column<T>(all: seq<Says>, of: Says -> T): (r: seq<T>)
    ensures |r| == |all| && forall i :: 0 <= i < |r| ==> r[i] == of(all[i])
  {
    seq(|all|, i requires 0 <= i < |all| => of(all[i]))
  }

  function KindsOf(all: seq<Says>): seq<Kind> { Column(all, (s: Says) => s.kind) }

  function StationsOf(all: seq<Says>): seq<string> { Column(all, (s: Says) => s.station) }

  function DatesOf(all: seq<Says>): seq<string> { Column(all, (s: Says) => s.date) }

  function MaximaOf(all: seq<Says>): seq<Option<int>> { Column(all, (s: Says) => s.tmax) }

  function MinimaOf(all: seq<Says>): seq<Option<int>> { Column(all, (s: Says) => s.tmin) }

  /** Whether a temperature section is open after the first `i` lines. */
  function Open(kinds: seq<Kind>, i: nat): bool
    requires i <= |kinds|
  {
    i > 0 && (kinds[i - 1].Heading? || (Open(kinds, i - 1) && !kinds[i - 1].Closing?))
  }

  /** Line `j` is a heading, and no line after it and before `i` closes the section. */
  ghost predicate HeadingReaches(kinds: seq<Kind>, j: int, i: int) {
    0 <= j < i <= |kinds| && kinds[j].Heading? && forall m :: j < m < i ==> !kinds[m].Closing?
  }

  /** Being in a section means that a heading came before, and nothing has closed it since. */
  lemma {:induction false} SectionHasHeading(kinds: seq<Kind>, i: nat)
    requires i <= |kinds|
    ensures Open(kinds, i) <==> exists j :: HeadingReaches(kinds, j, i)
  {
    if i > 0 {
      SectionHasHeading(kinds, i - 1);
      if kinds[i - 1].Heading? {
        assert HeadingReaches(kinds, i - 1, i);
      } else if Open(kinds, i) {
        var j :| HeadingReaches(kinds, j, i - 1);
        assert HeadingReaches(kinds, j, i);
      } else {
        forall j ensures !HeadingReaches(kinds, j, i) {
          assert HeadingReaches(kinds, j, i) ==> HeadingReaches(kinds, j, i - 1);
        }
      }
    }
  }

  /** The first temperature given on a line of a temperature section that neither opens nor closes it,
      among the first `n` lines. */
  function Temperature(kinds: seq<Kind>, given: seq<Option<int>>, n: nat): Option<int>
    requires n <= |kinds| == |given|
  {
    if n == 0 then None
    else if Temperature(kinds, given, n - 1).Some? then Temperature(kinds, given, n - 1)
    else if kinds[n - 1].Plain? && Open(kinds, n - 1) then given[n - 1]
    else None
  }

  /** Line `k` is such a line and gives temperature `t`, and no earlier one gives any. */
  ghost predicate FirstTo(kinds: seq<Kind>, given: seq<Option<int>>, n: nat, k: int, t: Option<int>)
    requires n <= |kinds| == |given|
  {
    0 <= k < n && kinds[k].Plain? && Open(kinds, k) && given[k] == t && t.Some? && NoneGives(kinds, given, k)
  }

  ghost predicate NoneGives(kinds: seq<Kind>, given: seq<Option<int>>, n: nat)
    requires n <= |kinds| == |given|
  {
    forall j :: 0 <= j < n && kinds[j].Plain? && Open(kinds, j) ==> given[j].None?
  }

  /** That temperature is the one of the first line in a section that gives one. */
  lemma {:induction false} TemperatureIsFirst(kinds: seq<Kind>, given: seq<Option<int>>, n: nat)
    requires n <= |kinds| == |given|
    ensures var t := Temperature(kinds, given, n);
            && (t.Some? ==> exists k :: FirstTo(kinds, given, n, k, t))
            && (t.None? <==> NoneGives(kinds, given, n))
  {
    if n > 0 {
      TemperatureIsFirst(kinds, given, n - 1);
      var t := Temperature(kinds, given, n);
      if Temperature(kinds, given, n - 1).Some? {
        var k :| FirstTo(kinds, given, n - 1, k, t);
        assert FirstTo(kinds, given, n, k, t);
      } else if t.Some? {
        assert FirstTo(kinds, given, n, n - 1, t);
      }
    }
  }

  /** The first text that is not empty, among the first `n`. */
  function FirstText(texts: seq<string>, n: nat): string
    requires n <= |texts|
  {
    if n == 0 then []
    else if FirstText(texts, n - 1) != [] then FirstText(texts, n - 1)
    else texts[n - 1]
  }

  ghost predicate FirstGiven(texts: seq<string>, n: nat, k: int)
    requires n <= |texts|
  {
    0 <= k < n && texts[k] != [] && forall j :: 0 <= j < k ==> texts[j] == []
  }

  /** That text is the first that is not empty. */
  lemma {:induction false} TextIsFirst(texts: seq<string>, n: nat)
    requires n <= |texts|
    ensures FirstText(texts, n) != [] ==> exists k :: FirstGiven(texts, n, k) && texts[k] == FirstText(texts, n)
    ensures FirstText(texts, n) == [] <==> forall j :: 0 <= j < n ==> texts[j] == []
  {
    if n > 0 {
      TextIsFirst(texts, n - 1);
      if FirstText(texts, n - 1) != [] {
        var k :| FirstGiven(texts, n - 1, k) && texts[k] == FirstText(texts, n - 1);
        assert FirstGiven(texts, n, k);
      } else if FirstText(texts, n) != [] {
        assert FirstGiven(texts, n, n - 1);
      }
    }
  }

  datatype Report = Report(station: string, date: string, tmax: Option<int>, tmin: Option<int>, isCorrected: bool)

  /** What has been found in the first `n` lines. */
  function FoundIn(all: seq<Says>, n: nat, corrected: bool): Report
    requires n <= |all|
  {
    Report(FirstText(StationsOf(all), n), FirstText(DatesOf(all), n),
           Temperature(KindsOf(all), MaximaOf(all), n), Temperature(KindsOf(all), MinimaOf(all), n), corrected)
  }

  /** What a product that is not the monthly table comes to: it fails only if none of the four fields is
      there. */
  function CliOf(text: string): Parsed {
    var all := SaysAll(Lines(text));
    var found := FoundIn(all, |all|, ContainsAnyCase(text, "CORRECTED") || ContainsAnyCase(text, "...COR"));
    if found.station == [] && found.date == [] && found.tmax.None? && found.tmin.None?
    then Failed(UnrecognizedLayout) else Cli(found)
  }

  datatype ParseError = EmptyText | UnrecognizedLayout

  datatype Parsed = Cli(report: Report) | Cf6(monthly: Cf6Report.Report) | Failed(error: ParseError)

  method NoteTemperature(line: string, keyword: string, sofar: Option<int>,
                         inTemperature: bool) returns (t: Option<int>)
    ensures t == if sofar.Some? || !inTemperature then sofar else IntAfter(line, keyword)
  {
    t := sofar;
    if inTemperature && t.None? {
      t := ScanIntAfter(line, keyword);
    }
  }

  method ScanIntAfter(line: string, keyword: string) returns (t: Option<int>)
    ensures t == IntAfter(line, keyword)
  {
    var p := IFind(line, keyword);
    match p {
      case None => t := None;
      case Some(at) => t := ScanFirstInt(line[at + |keyword|..]);
    }
  }

  method NoteDate(line: string, sofar: string) returns (d: string)
    ensures d == if sofar != [] then sofar else DateOn(line)
  {
    d := sofar;
    if sofar == [] {
      d := ScanDate(line);
    }
  }

  /** The section flag after a line: a heading opens it, some keywords close it. */
  method NoteSection(line: string, inTemperature: bool) returns (heading: bool, in': bool)
    ensures heading == KindOf(line).Heading?
    ensures in' == OpenAfter(KindOf(line), inTemperature)
  {
    var found := IFind(line, "TEMPERATURE");
    if found.Some? {
      return true, true;
    }
    heading, in' := false, inTemperature;
    var rain := IFind(line, "PRECIPITATION");
    var wind := IFind(line, "WIND");
    var humidity := IFind(line, "RELATIVE");
    if inTemperature && (rain.Some? || wind.Some? || humidity.Some?) {
      in' := false;
    }
  }

  predicate OpenAfter(kind: Kind, inTemperature: bool) { kind.Heading? || (inTemperature && !kind.Closing?) }

  /** One line more: what has been found before it, with what it says. */
  function Noted(r: Report, s: Says, inTemperature: bool): Report {
    var inside := inTemperature && s.kind.Plain?;
    r.(station := if r.station != [] then r.station else s.station,
       date := if r.date != [] then r.date else s.date,
       tmax := if r.tmax.Some? || !inside then r.tmax else s.tmax,
       tmin := if r.tmin.Some? || !inside then r.tmin else s.tmin)
  }

  const NOTHING_YET := Report([], [], None, None, false)

  /** The loop, line by line: what has been found, and whether a section is open. */
  function Reached(all: seq<Says>, i: nat, corrected: bool): (Report, bool)
    requires i <= |all|
  {
    if i == 0 then (NOTHING_YET.(isCorrected := corrected), false)
    else
      var (r, open) := Reached(all, i - 1, corrected);
      (Noted(r, all[i - 1], open), OpenAfter(all[i - 1].kind, open))
  }

  lemma {:induction false} ReachedIsFound(all: seq<Says>, i: nat, corrected: bool)
    requires i <= |all|
    ensures Reached(all, i, corrected) == (FoundIn(all, i, corrected), Open(KindsOf(all), i))
  {
    if i > 0 {
      ReachedIsFound(all, i - 1, corrected);
    }
  }

  /** The body of the line loop. */
  method NoteLine(r: Report, line: string, inTemperature: bool, ghost says: Says) returns (r': Report, in': bool)
    requires says == SaysOf(line)
    ensures r' == Noted(r, says, inTemperature)
    ensures in' == OpenAfter(says.kind, inTemperature)
  {
    r' := r;
    if r.station == [] {
      r' := r'.(station := StationOn(line));
    }
    var date := NoteDate(line, r.date);
    r' := r'.(date := date);
    var heading;
    heading, in' := NoteSection(line, inTemperature);
    if heading {
      return;
    }
    var tmax := NoteTemperature(line, "MAXIMUM", r.tmax, in');
    var tmin := NoteTemperature(line, "MINIMUM", r.tmin, in');
    r' := r'.(tmax := tmax, tmin := tmin);
  }

  method ScanReport(lines: seq<string>, corrected: bool) returns (r: Report)
    ensures r == FoundIn(SaysAll(lines), |lines|, corrected)
  {
    r := ScanLines(lines, corrected, SaysAll(lines));
  }

  /** The line loop; `all` is what the lines say. */
  method ScanLines(lines: seq<string>, corrected: bool, ghost all: seq<Says>) returns (r: Report)
    requires |all| == |lines| && forall i :: 0 <= i < |all| ==> SaysAt(all, lines, i)
    ensures r == FoundIn(all, |all|, corrected)
  {
    r := NOTHING_YET.(isCorrected := corrected);
    var inTemperature := false;
    for i := 0 to |lines|
      invariant (r, inTemperature) == Reached(all, i, corrected)
    {
      assert SaysAt(all, lines, i);
      r, inTemperature := NoteLine(r, lines[i], inTemperature, all[i]);
    }
    ReachedIsFound(all, |all|, corrected);
  }

  /** THE PRODUCT PARSER. The F-6 banner selects the monthly table; otherwise the report carries the
      first station, the first date, and the first maximum and minimum of the temperature sections,
      and it fails only if none of the four is there. */
  method ParseProduct(text: string) returns (r: Parsed)
    ensures text == [] <==> r == Failed(EmptyText)
    ensures text != [] ==>
              if ContainsAnyCase(text, "WS FORM: F-6") || ContainsAnyCase(text, "WS FORM F-6")
                 || ContainsAnyCase(text, "WS FORM:  F-6")
              then r == match Cf6Report.Cf6Of(text)
                        case Ok(monthly) => Cf6(monthly)
                        case UnrecognizedLayout => Failed(UnrecognizedLayout)
              else r == CliOf(text)
  {
    if text == [] {
      return Failed(EmptyText);
    }
    var a := IFind(text, "WS FORM: F-6");
    var b := IFind(text, "WS FORM F-6");
    var c := IFind(text, "WS FORM:  F-6");
    if a.Some? || b.Some? || c.Some? {
      var monthly := Cf6Report.ParseCf6(text);
      return if monthly.Ok? then Cf6(monthly.value) else Failed(UnrecognizedLayout);
    }
    var corrected := IFind(text, "CORRECTED");
    var reissued := IFind(text, "...COR");
    var lines := LinesOf(text);
    var report := ScanReport(lines, corrected.Some? || reissued.Some?);
    r := if report.station == [] && report.date == [] && report.tmax.None? && report.tmin.None?
         then Failed(UnrecognizedLayout) else Cli(report);
  }
}
