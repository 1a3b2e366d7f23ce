/** The NBP text bulletin: station blocks of labelled rows. What a bulletin means is defined block by
    block; the parser is a line-driven automaton that is proved to compute it. */
module NbpBulletin {
  import opened MachineInts
  import opened Sequences
  import opened Text
  import opened Decimal

  datatype Row = Row(tag: string, values: seq<Option<int>>)

  datatype Station = Station(name: string, cycleUtc: string, columns: seq<string>, rows: seq<Row>)

  datatype ParseError = EmptyText | NoBlocks

  datatype Result<+T> = Ok(value: T) | Err(error: ParseError)

  // ---------------------------------------------------------------- lines

  function StripAll(pieces: seq<string>): (r: seq<string>)
    ensures |r| == |pieces| && forall i :: 0 <= i < |r| ==> r[i] == StripCr(pieces[i])
  {
    seq(|pieces|, i requires 0 <= i < |pieces| => StripCr(pieces[i]))
  }

  function Lines(text: string): seq<string> { StripAll(Split(text, '\n')) }

  predicate IsHeader(line: string) { Contains(line, " NBP ") && Contains(line, "GUIDANCE") }

  predicate IsEnd(line: string) { Contains(line, "$$") }

  predicate IsColumnLabel(word: string) { word == "UTC" || word == "FHR" || word == "DT" }

  // ---------------------------------------------------------------- what a bulletin means

  /** A value; missing-value markers and anything that is not wholly a 32-bit integer are absent. */
  function AsValue(t: string): Option<int> {
    if t == "" || t == "999" || t == "-99" || t == "NG" || t == "**" then None
    else
      match ReadInt(t)
      case Value(v, n) => if n == |t| then Some(v) else None
      case _ => None
  }

  function ValuesOf(words: seq<string>): (vs: seq<Option<int>>)
    ensures |vs| == |words| && forall i :: 0 <= i < |vs| ==> vs[i] == AsValue(words[i])
  {
    if words == [] then [] else [AsValue(words[0])] + ValuesOf(words[1..])
  }

  /** The first row labelled UTC, FHR or DT names the columns. */
  function ColumnsOf(body: seq<string>): seq<string> {
    if body == [] then []
    else
      var words := Tokens(body[0]);
      if words != [] && IsColumnLabel(words[0]) then words[1..] else ColumnsOf(body[1..])
  }

  /** Every other row that is not blank, in order. */
  function RowsOf(body: seq<string>, haveColumns: bool): seq<Row> {
    if body == [] then []
    else
      var words := Tokens(body[0]);
      if words == [] then RowsOf(body[1..], haveColumns)
      else if !haveColumns && IsColumnLabel(words[0]) then RowsOf(body[1..], true)
      else [Row(words[0], ValuesOf(words[1..]))] + RowsOf(body[1..], haveColumns)
  }

  function DropBlanks(s: string): string {
    if s != [] && (s[0] == ' ' || s[0] == '\t') then DropBlanks(s[1..]) else s
  }

  function NameOf(header: string): string {
    if Tokens(header) == [] then [] else Tokens(header)[0]
  }

  function CycleOf(header: string): string {
    match Find(header, "GUIDANCE")
    case Some(i) => DropBlanks(header[i + 8..])
    case None => []
  }

  /** A block's lines go on until the next header or end mark. */
  function Body(lines: seq<string>): seq<string> {
    if lines == [] || IsHeader(lines[0]) || IsEnd(lines[0]) then [] else [lines[0]] + Body(lines[1..])
  }

  function StationOf(header: string, body: seq<string>): Station {
    Station(NameOf(header), CycleOf(header), ColumnsOf(body), RowsOf(body, false))
  }

  /** One station per header line, described by the lines of its block. */
  function Stations(lines: seq<string>): seq<Station> {
    if lines == [] then []
    else if IsHeader(lines[0]) then [StationOf(lines[0], Body(lines[1..]))] + Stations(lines[1..])
    else Stations(lines[1..])
  }

  function Parsed(text: string): Result<seq<Station>> {
    if text == [] then Err(EmptyText)
    else if Stations(Lines(text)) == [] then Err(NoBlocks)
    else Ok(Stations(Lines(text)))
  }

  // ---------------------------------------------------------------- the automaton

  /** A station under construction, once the rest of its block has been read. */
  function Complete(cur: Station, haveColumns: bool, body: seq<string>): Station {
    Station(cur.name, cur.cycleUtc, if haveColumns then cur.columns else cur.columns + ColumnsOf(body),
            cur.rows + RowsOf(body, haveColumns))
  }

  /** What the automaton will deliver in the end from where it stands. */
  function Outcome(stations: seq<Station>, cur: Station, inBlock: bool, haveColumns: bool,
                   lines: seq<string>): seq<Station> {
    stations + (if inBlock then [Complete(cur, haveColumns, Body(lines))] else []) + Stations(lines)
  }

  const NO_STATION := Station([], [], [], [])

  /** A header line has a first word, and it is not empty. */
  lemma HeaderHasName(line: string)
    requires IsHeader(line)
    ensures NameOf(line) != []
  {
    var i := Find(line, " NBP ").value;
    assert line[i..i + 5][1] == 'N';
    SomeWord(line, i + 1);
  }

  method ValuesFrom(words: seq<string>) returns (values: seq<Option<int>>)
    requires words != []
    ensures values == ValuesOf(words[1..])
  {
    values := [];
    for i := 1 to |words|
      invariant |values| == i - 1 && forall k :: 0 <= k < i - 1 ==> values[k] == AsValue(words[k + 1])
    {
      values := values + [AsValue(words[i])];
    }
  }

  method FirstNotBlank(s: string) returns (i: nat)
    ensures i <= |s| && s[i..] == DropBlanks(s)
  {
    i := 0;
    assert s[0..] == s;
    while i < |s| && (s[i] == ' ' || s[i] == '\t')
      invariant i <= |s| && DropBlanks(s[i..]) == DropBlanks(s)
    {
      assert s[i..][1..] == s[i + 1..];
      i := i + 1;
    }
  }

  /** A new block: the header names the station and, after GUIDANCE, its cycle. */
  method StartBlock(line: string) returns (cur: Station)
    requires IsHeader(line)
    ensures cur == Station(NameOf(line), CycleOf(line), [], []) && cur.name != []
  {
    HeaderHasName(line);
    cur := NO_STATION;
    var words := TokensOf(line);
    if words != [] {
      cur := cur.(name := words[0]);
    }
    var gp := Find(line, "GUIDANCE");
    if gp.Some? {
      var tail := line[gp.value + 8..];
      var a := FirstNotBlank(tail);
      if a < |tail| {
        cur := cur.(cycleUtc := tail[a..]);
      }
    }
  }

  /** A line inside a block: the column row, another labelled row, or a blank. */
  method BlockLine(line: string, cur: Station, haveColumns: bool) returns (cur': Station, have': bool)
    ensures cur'.name == cur.name
    ensures forall body :: Complete(cur', have', body) == Complete(cur, haveColumns, [line] + body)
  {
    var words := TokensOf(line);
    forall body ensures ([line] + body)[1..] == body {
    }
    if words == [] {
      return cur, haveColumns;
    }
    if !haveColumns && IsColumnLabel(words[0]) {
      return cur.(columns := cur.columns + words[1..]), true;
    }
    var values := ValuesFrom(words);
    cur', have' := cur.(rows := cur.rows + [Row(words[0], values)]), haveColumns;
    forall body ensures cur.rows + RowsOf([line] + body, haveColumns) == cur'.rows + RowsOf(body, haveColumns) {
      Assoc(cur.rows, [Row(words[0], values)], RowsOf(body, haveColumns));
    }
  }

  // ---------------------------------------------------------------- one line of the automaton

  lemma OutcomeAtHeader(stations: seq<Station>, cur: Station, inBlock: bool, haveColumns: bool, line: string,
                        rest: seq<string>)
    requires IsHeader(line)
    ensures var flushed := stations + (if inBlock then [cur] else []);
            Outcome(stations, cur, inBlock, haveColumns, [line] + rest)
              == Outcome(flushed, Station(NameOf(line), CycleOf(line), [], []), true, false, rest)
  {
    var lines := [line] + rest;
    assert lines[1..] == rest;
    var begun := Station(NameOf(line), CycleOf(line), [], []);
    CompleteWithNothing(cur, haveColumns);
    assert Complete(begun, false, Body(rest)) == StationOf(line, Body(rest));
    Assoc(stations + (if inBlock then [cur] else []), [StationOf(line, Body(rest))], Stations(rest));
  }

  lemma CompleteWithNothing(cur: Station, haveColumns: bool)
    ensures Complete(cur, haveColumns, []) == cur
  {
    assert cur.columns + [] == cur.columns && cur.rows + [] == cur.rows;
  }

  lemma OutcomeAtEnd(stations: seq<Station>, cur: Station, haveColumns: bool, line: string, rest: seq<string>)
    requires !IsHeader(line) && IsEnd(line)
    ensures Outcome(stations, cur, true, haveColumns, [line] + rest)
              == Outcome(stations + [cur], NO_STATION, false, false, rest)
  {
    assert ([line] + rest)[1..] == rest;
    CompleteWithNothing(cur, haveColumns);
    assert stations + [cur] + [] == stations + [cur];
  }

  lemma OutcomeOutside(stations: seq<Station>, cur: Station, haveColumns: bool, line: string, rest: seq<string>)
    requires !IsHeader(line)
    ensures Outcome(stations, cur, false, haveColumns, [line] + rest)
              == Outcome(stations, cur, false, haveColumns, rest)
  {
    assert ([line] + rest)[1..] == rest;
  }

  lemma OutcomeInside(stations: seq<Station>, cur: Station, haveColumns: bool, cur': Station, have': bool,
                      line: string, rest: seq<string>)
    requires !IsHeader(line) && !IsEnd(line)
    requires Complete(cur', have', Body(rest)) == Complete(cur, haveColumns, [line] + Body(rest))
    ensures Outcome(stations, cur, true, haveColumns, [line] + rest) == Outcome(stations, cur', true, have', rest)
  {
    assert ([line] + rest)[1..] == rest;
  }

  /** The automaton's state: what was delivered, the block being read, and two flags. */
  method ScanLine(line: string, stations: seq<Station>, cur: Station, inBlock: bool, haveColumns: bool,
                  ghost rest: seq<string>)
      returns (stations': seq<Station>, cur': Station, in': bool, have': bool)
    requires inBlock ==> cur.name != []
    ensures in' ==> cur'.name != []
    ensures Outcome(stations', cur', in', have', rest) == Outcome(stations, cur, inBlock, haveColumns, [line] + rest)
  {
    stations', cur', in', have' := stations, cur, inBlock, haveColumns;
    if IsHeader(line) {
      OutcomeAtHeader(stations, cur, inBlock, haveColumns, line, rest);
      assert stations + [] == stations;
      if inBlock && cur.name != [] {
        stations' := stations' + [cur];
      }
      cur' := StartBlock(line);
      in', have' := true, false;
      return;
    }
    if !inBlock {
      OutcomeOutside(stations, cur, haveColumns, line, rest);
      return;
    }
    if IsEnd(line) {
      OutcomeAtEnd(stations, cur, haveColumns, line, rest);
      if cur.name != [] {
        stations' := stations' + [cur];
      }
      cur', in', have' := NO_STATION, false, false;
      return;
    }
    cur', have' := BlockLine(line, cur, haveColumns);
    OutcomeInside(stations, cur, haveColumns, cur', have', line, rest);
  }

  /** The lines from a position on; none past the end. */
  ghost function LinesFrom(text: string, start: nat): seq<string> {
    if start <= |text| then Lines(text[start..]) else []
  }

  lemma StripAllConcat(a: seq<string>, b: seq<string>)
    ensures StripAll(a + b) == StripAll(a) + StripAll(b)
  {
  }

  lemma NextLine(text: string, start: nat, nl: nat)
    requires start <= nl <= |text| && (nl < |text| ==> text[nl] == '\n')
    requires forall k :: start <= k < nl ==> text[k] != '\n'
    ensures LinesFrom(text, start) == [StripCr(text[start..nl])] + LinesFrom(text, nl + 1)
  {
    var line := text[start..nl];
    SplitWhole(line, '\n');
    if nl < |text| {
      assert text[start..] == line + ['\n'] + text[nl + 1..];
      SplitConcat(line, '\n', text[nl + 1..]);
      StripAllConcat([line], Split(text[nl + 1..], '\n'));
    } else {
      assert text[start..] == line;
    }
    assert StripAll([line]) == [StripCr(line)];
  }

  lemma NothingToRead(stations: seq<Station>, cur: Station, inBlock: bool, haveColumns: bool)
    ensures Outcome(stations, cur, inBlock, haveColumns, []) == stations + (if inBlock then [cur] else [])
  {
    CompleteWithNothing(cur, haveColumns);
    var flushed := stations + (if inBlock then [cur] else []);
    assert flushed + [] == flushed;
  }

  /** THE PARSER. Reading line by line, it returns exactly the stations of the bulletin; it fails
      exactly on the empty text and on a text without a header line. */
  method ParseNbpBulletin(text: string) returns (r: Result<seq<Station>>)
    ensures r == Parsed(text)
  {
    if text == [] {
      return Err(EmptyText);
    }
    var stations := ScanText(text);
    r := if stations == [] then Err(NoBlocks) else Ok(stations);
  }

  /** The line loop, with the block still open at the end of the text delivered last. */
  method ScanText(text: string) returns (stations: seq<Station>)
    ensures stations == Stations(Lines(text))
  {
    var cur, inBlock, haveColumns := NO_STATION, false, false;
    stations := [];
    var start: nat := 0;
    ghost var goal := Outcome([], NO_STATION, false, false, LinesFrom(text, 0));
    FromTheStart(text);
    while start <= |text|
      invariant start <= |text| + 1
      invariant inBlock ==> cur.name != []
      invariant Outcome(stations, cur, inBlock, haveColumns, LinesFrom(text, start)) == goal
    {
      var nl := NextNewline(text, start);
      NextLine(text, start, nl);
      var line := StripCr(text[start..nl]);
      start := nl + 1;
      ghost var rest := LinesFrom(text, start);
      stations, cur, inBlock, haveColumns := ScanLine(line, stations, cur, inBlock, haveColumns, rest);
    }
    NothingToRead(stations, cur, inBlock, haveColumns);
    assert stations + [] == stations;
    if inBlock && cur.name != [] {
      stations := stations + [cur];
    }
  }

  lemma FromTheStart(text: string)
    ensures Outcome([], NO_STATION, false, false, LinesFrom(text, 0)) == Stations(Lines(text))
  {
    assert text[0..] == text;
    assert [] + [] + Stations(Lines(text)) == Stations(Lines(text));
  }

  // ---------------------------------------------------------------- headers and homomorphism

  function Headers(lines: seq<string>): (hs: seq<string>)
    ensures forall i :: 0 <= i < |hs| ==> hs[i] in lines && IsHeader(hs[i])
  {
    if lines == [] then []
    else (if IsHeader(lines[0]) then [lines[0]] else []) + Headers(lines[1..])
  }

  lemma StationsCons(line: string, rest: seq<string>)
    ensures Stations([line] + rest) ==
            (if IsHeader(line) then [StationOf(line, Body(rest))] else []) + Stations(rest)
    ensures Headers([line] + rest) == (if IsHeader(line) then [line] else []) + Headers(rest)
    ensures Body([line] + rest) == if IsHeader(line) || IsEnd(line) then [] else [line] + Body(rest)
  {
    assert ([line] + rest)[1..] == rest;
    assert [] + Stations(rest) == Stations(rest);
  }

  /** One station per header line, in the order of the headers, named and timed by its own. */
  lemma {:induction false} OneStationPerHeader(lines: seq<string>)
    ensures |Stations(lines)| == |Headers(lines)|
    ensures forall i :: 0 <= i < |Stations(lines)| ==> Describes(Stations(lines)[i], Headers(lines)[i])
  {
    if lines != [] {
      var line, rest := lines[0], lines[1..];
      Regroup(lines, []);
      OneStationPerHeader(rest);
      StationsCons(line, rest);
      if IsHeader(line) {
        HeaderHasName(line);
        assert Describes(StationOf(line, Body(rest)), line);
      }
    }
  }

  ghost predicate Describes(st: Station, header: string) {
    st.name == NameOf(header) != [] && st.cycleUtc == CycleOf(header)
  }

  /** The parser fails exactly on text without a header line. */
  lemma FailsExactlyWithoutHeader(text: string)
    ensures Parsed(text).Err? <==>
            text == []
            || forall i :: 0 <= i < |Lines(text)| ==> !(Has(Lines(text)[i], " NBP ") && Has(Lines(text)[i], "GUIDANCE"))
    ensures Parsed(text) == Err(EmptyText) <==> text == []
  {
    var lines := Lines(text);
    NoHeadersMeansNone(lines);
    forall i | 0 <= i < |lines| ensures IsHeader(lines[i]) <==> Has(lines[i], " NBP ") && Has(lines[i], "GUIDANCE") {
      HeaderHas(lines[i]);
    }
  }

  lemma HeaderHas(line: string)
    ensures IsHeader(line) <==> Has(line, " NBP ") && Has(line, "GUIDANCE")
    ensures IsEnd(line) <==> Has(line, "$$")
  {
    HasIsFound(line, " NBP ");
    HasIsFound(line, "GUIDANCE");
    HasIsFound(line, "$$");
  }

  lemma {:induction false} NoHeadersMeansNone(lines: seq<string>)
    ensures Stations(lines) == [] <==> forall i :: 0 <= i < |lines| ==> !IsHeader(lines[i])
  {
    if lines != [] {
      NoHeadersMeansNone(lines[1..]);
      assert forall i :: 1 <= i < |lines| ==> lines[i] == lines[1..][i - 1];
    }
  }

  lemma {:induction false} BodyEndsAtHeader(lines: seq<string>, more: seq<string>)
    requires more != [] && IsHeader(more[0])
    ensures Body(lines + more) == Body(lines)
  {
    if lines == [] {
      assert lines + more == more;
    } else {
      var line, rest := lines[0], lines[1..];
      Regroup(lines, more);
      BodyEndsAtHeader(rest, more);
      StationsCons(line, rest);
      StationsCons(line, rest + more);
    }
  }

  /** No block of lines in front runs on into `more`. */
  ghost predicate StopsBlocks(more: seq<string>) {
    forall lines :: Body(lines + more) == Body(lines)
  }

  lemma {:induction false} StationsConcat(lines: seq<string>, more: seq<string>)
    requires StopsBlocks(more)
    ensures Stations(lines + more) == Stations(lines) + Stations(more)
  {
    if lines == [] {
      assert lines + more == more && Stations(lines) == [];
      assert [] + Stations(more) == Stations(more);
    } else {
      var line, rest := lines[0], lines[1..];
      Regroup(lines, more);
      StationsConcat(rest, more);
      StationsConcatStep(line, rest, more);
    }
  }

  lemma HeaderStopsBlocks(more: seq<string>)
    requires more != [] && IsHeader(more[0])
    ensures StopsBlocks(more)
  {
    forall lines ensures Body(lines + more) == Body(lines) {
      BodyEndsAtHeader(lines, more);
    }
  }

  lemma StationsConcatStep(line: string, rest: seq<string>, more: seq<string>)
    requires Stations(rest + more) == Stations(rest) + Stations(more) && Body(rest + more) == Body(rest)
    ensures Stations([line] + (rest + more)) == Stations([line] + rest) + Stations(more)
  {
    StationsCons(line, rest);
    StationsCons(line, rest + more);
    var head := if IsHeader(line) then [StationOf(line, Body(rest))] else [];
    Assoc(head, Stations(rest), Stations(more));
  }

  /** HOMOMORPHISM. Joining two texts with a newline, the second starting with a header line, yields
      the first's stations followed by the second's, whether or not the first's last block was closed. */
  lemma JoinedBulletins(first: string, second: string)
    requires IsHeader(Lines(second)[0])
    ensures Stations(Lines(first + ['\n'] + second)) == Stations(Lines(first)) + Stations(Lines(second))
  {
    SplitConcat(first, '\n', second);
    StripAllConcat(Split(first, '\n'), Split(second, '\n'));
    HeaderStopsBlocks(Lines(second));
    StationsConcat(Lines(first), Lines(second));
  }
}
