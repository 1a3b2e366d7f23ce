/** NBP bulletins as they are printed, and the proof that the parser reads the stations back. What the
    lines look like is described without the parser's own notions. */
module NbpPrinting {
  import opened MachineInts
  import opened Sequences
  import opened Text
  import opened Decimal
  import opened NbpBulletin

  // ---------------------------------------------------------------- how a station is printed

  /** One of the missing-value markers, a whole 32-bit numeral, or something else that means nothing. */
  ghost predicate PrintsValue(word: string, v: Option<int>) {
    if word in {"999", "-99", "NG", "**"} then v.None?
    else
      && (v.Some? ==> Numeral(word, v.value) && -2147483648 <= v.value <= 2147483647)
      && (v.None? ==> forall n :: Numeral(word, n) ==> !(-2147483648 <= n <= 2147483647))
  }

  ghost predicate PrintsRow(words: seq<string>, row: Row) {
    && |words| == 1 + |row.values| && words[0] == row.tag
    && forall i :: 0 <= i < |row.values| ==> PrintsValue(words[1 + i], row.values[i])
  }

  /** A row to a line, with blank lines among them. */
  ghost predicate PrintsRows(table: seq<seq<string>>, rows: seq<Row>) {
    if table == [] then rows == []
    else if table[0] == [] then PrintsRows(table[1..], rows)
    else rows != [] && PrintsRow(table[0], rows[0]) && PrintsRows(table[1..], rows[1..])
  }

  ghost predicate Labelled(words: seq<string>) { words != [] && words[0] in {"UTC", "FHR", "DT"} }

  ghost predicate NoneLabelled(table: seq<seq<string>>) { forall i :: 0 <= i < |table| ==> !Labelled(table[i]) }

  /** Line `c` is the first with a column label; it names the columns, and the others are the rows. */
  ghost predicate PrintsTable(table: seq<seq<string>>, c: nat, columns: seq<string>, rows: seq<Row>) {
    && c <= |table| && NoneLabelled(table[..c])
    && if c == |table| then columns == [] && PrintsRows(table, rows)
       else
         && Labelled(table[c]) && columns == table[c][1..]
         && exists r: nat :: r <= |rows| && PrintsRows(table[..c], rows[..r]) && PrintsRows(table[c + 1..], rows[r..])
  }

  ghost predicate AllSpell(lines: seq<string>, table: seq<seq<string>>) {
    |lines| == |table| && forall i :: 0 <= i < |lines| ==> Spells(lines[i], table[i])
  }

  ghost predicate Heads(line: string) { Has(line, " NBP ") && Has(line, "GUIDANCE") }

  function CycleLine(front: string, gap: string, cycle: string): string { front + "GUIDANCE" + (gap + cycle) }

  /** What follows the first GUIDANCE, blanks and tabs aside. */
  ghost predicate PrintsCycle(line: string, cycle: string) {
    exists front, gap :: line == CycleLine(front, gap, cycle) && CycleParts(line, front, gap, cycle)
  }

  ghost predicate CycleParts(line: string, front: string, gap: string, cycle: string) {
    && (forall i: nat :: i < |front| ==> !HasAt(line, "GUIDANCE", i))
    && (forall i :: 0 <= i < |gap| ==> gap[i] == ' ' || gap[i] as int == 9)
    && (cycle != [] ==> cycle[0] != ' ' && cycle[0] as int != 9)
  }

  ghost predicate PrintsName(line: string, name: string) {
    exists words :: Spells(line, words) && words != [] && words[0] == name
  }

  /** A block: its header, the lines it consists of, and those from its end mark to the next header, if it
      has an end mark. */
  datatype Block = Block(header: string, body: seq<string>, end: seq<string>)

  ghost predicate WellFormed(b: Block) {
    && Heads(b.header)
    && (forall i :: 0 <= i < |b.body| ==> !Heads(b.body[i]) && !Has(b.body[i], "$$"))
    && (b.end != [] ==> Has(b.end[0], "$$")) && forall i :: 0 <= i < |b.end| ==> !Heads(b.end[i])
  }

  ghost predicate PrintsStation(b: Block, st: Station) {
    && WellFormed(b) && PrintsName(b.header, st.name) && PrintsCycle(b.header, st.cycleUtc)
    && exists table, c: nat :: AllSpell(b.body, table) && PrintsTable(table, c, st.columns, st.rows)
  }

  function BlockLines(b: Block): seq<string> { [b.header] + (b.body + b.end) }

  function BulletinLines(blocks: seq<Block>): seq<string> {
    if blocks == [] then [] else BlockLines(blocks[0]) + BulletinLines(blocks[1..])
  }

  /** A carriage return may end a line. */
  ghost predicate Ends(piece: string, line: string) {
    && Lacks(piece, '\n')
    && (piece == line + "\r" || (piece == line && (line != [] ==> line[|line| - 1] != '\r')))
  }

  ghost predicate PrintsLines(text: string, lines: seq<string>) {
    exists pieces ::
      && |pieces| == |lines| > 0 && text == Join(pieces, '\n')
      && forall i :: 0 <= i < |lines| ==> Ends(pieces[i], lines[i])
  }

  // ---------------------------------------------------------------- values and rows

  /** A VALUE is read as printed, and as nothing else. */
  lemma ValueIsRead(word: string, v: Option<int>)
    ensures PrintsValue(word, v) <==> AsValue(word) == v
  {
    if v.Some? {
      ReadingWhole(word, v.value);
    }
    forall n ensures Numeral(word, n) && -2147483648 <= n <= 2147483647 <==> ReadInt(word) == Value(n, |word|) {
      ReadingWhole(word, n);
    }
  }

  lemma RowIsRead(words: seq<string>, row: Row)
    requires PrintsRow(words, row)
    ensures Row(words[0], ValuesOf(words[1..])) == row
  {
    forall i | 0 <= i < |row.values| ensures ValuesOf(words[1..])[i] == row.values[i] {
      ValueIsRead(words[1 + i], row.values[i]);
    }
  }

  lemma {:induction false} RowsAreRead(body: seq<string>, table: seq<seq<string>>, rows: seq<Row>, past: bool)
    requires AllSpell(body, table) && PrintsRows(table, rows) && (past || NoneLabelled(table))
    ensures RowsOf(body, past) == rows
    decreases |table|
  {
    if table != [] {
      SpelledAreRead(body[0], table[0]);
      if table[0] == [] {
        RowsAreRead(body[1..], table[1..], rows, past);
      } else {
        assert !past ==> !Labelled(table[0]);
        RowIsRead(table[0], rows[0]);
        RowsAreRead(body[1..], table[1..], rows[1..], past);
        Regroup(rows, []);
      }
    }
  }

  lemma ColumnLineIsRead(line: string, words: seq<string>, body: seq<string>)
    requires Spells(line, words) && Labelled(words)
    ensures ColumnsOf([line] + body) == words[1..] && RowsOf([line] + body, false) == RowsOf(body, true)
  {
    SpelledAreRead(line, words);
    HeadAndTail([line], body);
    NothingMore(body);
  }

  lemma PartsSpell(body: seq<string>, table: seq<seq<string>>, c: nat)
    requires AllSpell(body, table) && c < |table|
    ensures AllSpell(body[..c], table[..c]) && AllSpell(body[c + 1..], table[c + 1..]) && Spells(body[c], table[c])
  {
  }

  lemma ColumnsAndRowsAreRead(body: seq<string>, table: seq<seq<string>>, c: nat, rows: seq<Row>, r: nat)
    requires AllSpell(body, table) && c < |table| && NoneLabelled(table[..c]) && Labelled(table[c]) && r <= |rows|
    requires PrintsRows(table[..c], rows[..r]) && PrintsRows(table[c + 1..], rows[r..])
    ensures ColumnsOf(body) == table[c][1..] && RowsOf(body, false) == rows
  {
    PartsSpell(body, table, c);
    PartsAreRead(body[..c], body[c], body[c + 1..], table[..c], table[c], table[c + 1..], rows[..r], rows[r..]);
    CutAround(body, c);
    CutAt(rows, r);
  }

  lemma PartsAreRead(front: seq<string>, line: string, back: seq<string>, above: seq<seq<string>>, words: seq<string>,
                     below: seq<seq<string>>, before: seq<Row>, after: seq<Row>)
    requires AllSpell(front, above) && NoneLabelled(above) && PrintsRows(above, before)
    requires Spells(line, words) && Labelled(words)
    requires AllSpell(back, below) && PrintsRows(below, after)
    ensures ColumnsOf(front + [line] + back) == words[1..] && RowsOf(front + [line] + back, false) == before + after
  {
    RowsAreRead(front, above, before, false);
    NoColumns(front, above);
    RowsAreRead(back, below, after, true);
    ColumnsAmong(front, line, words, back);
  }

  lemma ColumnsAmong(front: seq<string>, line: string, words: seq<string>, back: seq<string>)
    requires NoColumnLine(front) && Spells(line, words) && Labelled(words)
    ensures ColumnsOf(front + [line] + back) == words[1..]
    ensures RowsOf(front + [line] + back, false) == RowsOf(front, false) + RowsOf(back, true)
  {
    ColumnLineIsRead(line, words, back);
    RowsBehind(front, [line] + back);
    Assoc(front, [line], back);
  }

  lemma TableIsRead(body: seq<string>, table: seq<seq<string>>, c: nat, columns: seq<string>, rows: seq<Row>)
    requires AllSpell(body, table) && PrintsTable(table, c, columns, rows)
    ensures ColumnsOf(body) == columns && RowsOf(body, false) == rows
  {
    if c == |table| {
      assert table[..c] == table;
      NoColumns(body, table);
      RowsAreRead(body, table, rows, false);
    } else {
      var r: nat :| r <= |rows| && PrintsRows(table[..c], rows[..r]) && PrintsRows(table[c + 1..], rows[r..]);
      ColumnsAndRowsAreRead(body, table, c, rows, r);
    }
  }

  ghost predicate NoColumnLine(body: seq<string>) {
    forall i :: 0 <= i < |body| && Tokens(body[i]) != [] ==> !IsColumnLabel(Tokens(body[i])[0])
  }

  lemma {:induction false} NoColumns(body: seq<string>, table: seq<seq<string>>)
    requires AllSpell(body, table) && NoneLabelled(table)
    ensures NoColumnLine(body) && ColumnsOf(body) == []
  {
    if body != [] {
      SpelledAreRead(body[0], table[0]);
      NoColumns(body[1..], table[1..]);
      assert forall i :: 1 <= i < |body| ==> body[i] == body[1..][i - 1];
    }
  }

  lemma {:induction false} RowsBehind(front: seq<string>, body: seq<string>)
    requires NoColumnLine(front)
    ensures ColumnsOf(front + body) == ColumnsOf(body)
    ensures RowsOf(front + body, false) == RowsOf(front, false) + RowsOf(body, false)
  {
    if front == [] {
      NothingMore(body);
      NothingMore(RowsOf(body, false));
    } else {
      RowsBehind(front[1..], body);
      HeadAndTail(front, body);
      var words := Tokens(front[0]);
      if words != [] {
        Assoc([Row(words[0], ValuesOf(words[1..]))], RowsOf(front[1..], false), RowsOf(body, false));
      }
    }
  }

  // ---------------------------------------------------------------- the header line

  lemma NameIsRead(line: string, name: string)
    requires PrintsName(line, name)
    ensures NameOf(line) == name
  {
    var words :| Spells(line, words) && words != [] && words[0] == name;
    SpelledAreRead(line, words);
  }

  lemma {:induction false} BlanksAreDropped(gap: string, rest: string)
    requires forall i :: 0 <= i < |gap| ==> gap[i] == ' ' || gap[i] as int == 9
    requires rest != [] ==> rest[0] != ' ' && rest[0] as int != 9
    ensures DropBlanks(gap + rest) == rest
  {
    if gap == [] {
      NothingMore(rest);
    } else {
      HeadAndTail(gap, rest);
      BlanksAreDropped(gap[1..], rest);
    }
  }

  lemma CycleIsRead(line: string, cycle: string)
    requires PrintsCycle(line, cycle)
    ensures CycleOf(line) == cycle
  {
    var front, gap :| line == CycleLine(front, gap, cycle) && CycleParts(line, front, gap, cycle);
    assert HasAt(line, "GUIDANCE", |front|);
    HasIsFound(line, "GUIDANCE");
    assert line[|front| + 8..] == gap + cycle;
    BlanksAreDropped(gap, cycle);
  }

  // ---------------------------------------------------------------- blocks

  /** Lines that are neither headers nor end marks are a body up to what stops it. */
  lemma {:induction false} BodyUpTo(body: seq<string>, more: seq<string>)
    requires forall i :: 0 <= i < |body| ==> !IsHeader(body[i]) && !IsEnd(body[i])
    requires more != [] ==> IsHeader(more[0]) || IsEnd(more[0])
    ensures Body(body + more) == body
  {
    if body == [] {
      NothingMore(more);
    } else {
      BodyUpTo(body[1..], more);
      HeadAndTail(body, more);
      Regroup(body, []);
    }
  }

  lemma {:induction false} StationsPast(lines: seq<string>, rest: seq<string>)
    requires forall i :: 0 <= i < |lines| ==> !IsHeader(lines[i])
    ensures Stations(lines + rest) == Stations(rest)
  {
    if lines == [] {
      NothingMore(rest);
    } else {
      StationsPast(lines[1..], rest);
      HeadAndTail(lines, rest);
    }
  }

  lemma LinesOfBlock(b: Block)
    requires WellFormed(b)
    ensures IsHeader(b.header)
    ensures forall i :: 0 <= i < |b.body| ==> !IsHeader(b.body[i]) && !IsEnd(b.body[i])
    ensures (b.end != [] ==> IsEnd(b.end[0])) && forall i :: 0 <= i < |b.end| ==> !IsHeader(b.end[i])
  {
    HeaderHas(b.header);
    forall i | 0 <= i < |b.body| ensures !IsHeader(b.body[i]) && !IsEnd(b.body[i]) {
      HeaderHas(b.body[i]);
    }
    forall i | 0 <= i < |b.end| ensures !IsHeader(b.end[i]) && (i == 0 ==> IsEnd(b.end[0])) {
      HeaderHas(b.end[i]);
    }
  }

  lemma StationIsRead(b: Block, st: Station)
    requires PrintsStation(b, st)
    ensures StationOf(b.header, b.body) == st
  {
    var table, c: nat :| AllSpell(b.body, table) && PrintsTable(table, c, st.columns, st.rows);
    TableIsRead(b.body, table, c, st.columns, st.rows);
    NameIsRead(b.header, st.name);
    CycleIsRead(b.header, st.cycleUtc);
  }

  /** One printed block is read as its station, whatever header follows. */
  lemma BlockIsRead(b: Block, st: Station, rest: seq<string>)
    requires PrintsStation(b, st) && (rest != [] ==> IsHeader(rest[0]))
    ensures Stations(BlockLines(b) + rest) == [st] + Stations(rest)
  {
    var more := b.body + (b.end + rest);
    LinesOfBlock(b);
    StationIsRead(b, st);
    BlockAndMore(b, rest);
    StationsCons(b.header, more);
    BodyUpTo(b.body, b.end + rest);
    StationsPast(b.body, b.end + rest);
    StationsPast(b.end, rest);
  }

  lemma BlockAndMore(b: Block, rest: seq<string>)
    ensures BlockLines(b) + rest == [b.header] + (b.body + (b.end + rest))
  {
    Assoc([b.header], b.body + b.end, rest);
    Assoc(b.body, b.end, rest);
  }

  ghost predicate PrintsAll(blocks: seq<Block>, sts: seq<Station>) {
    |blocks| == |sts| && forall i :: 0 <= i < |sts| ==> PrintsStation(blocks[i], sts[i])
  }

  lemma {:induction false} BlocksAreRead(blocks: seq<Block>, sts: seq<Station>)
    requires PrintsAll(blocks, sts)
    ensures Stations(BulletinLines(blocks)) == sts
    ensures blocks != [] ==> BulletinLines(blocks) != [] && IsHeader(BulletinLines(blocks)[0])
  {
    if blocks != [] {
      BlocksAreRead(blocks[1..], sts[1..]);
      LinesOfBlock(blocks[0]);
      BlockIsRead(blocks[0], sts[0], BulletinLines(blocks[1..]));
      Regroup(sts, []);
    }
  }

  lemma LinesAreCut(text: string, lines: seq<string>)
    requires PrintsLines(text, lines)
    ensures Lines(text) == lines
  {
    var pieces :| |pieces| == |lines| > 0 && text == Join(pieces, '\n')
                  && forall i :: 0 <= i < |lines| ==> Ends(pieces[i], lines[i]);
    forall i | 0 <= i < |lines| ensures Lacks(pieces[i], '\n') && StripCr(pieces[i]) == lines[i] {
      assert Ends(pieces[i], lines[i]);
    }
    SplitJoin(pieces, '\n');
  }

  /** ROUND TRIP. A text that prints stations, in any of the ways a bulletin may be written and with any
      lines before the first, is parsed to exactly these stations in order. */
  lemma PrintedBulletinIsParsed(text: string, front: seq<string>, blocks: seq<Block>, sts: seq<Station>)
    requires PrintsLines(text, front + BulletinLines(blocks)) && PrintsAll(blocks, sts)
    requires forall i :: 0 <= i < |front| ==> !Heads(front[i])
    ensures Parsed(text) == if sts != [] then Ok(sts) else Err(if text == [] then EmptyText else NoBlocks)
  {
    LinesAreCut(text, front + BulletinLines(blocks));
    forall i | 0 <= i < |front| ensures !IsHeader(front[i]) {
      HeaderHas(front[i]);
    }
    StationsPast(front, BulletinLines(blocks));
    BlocksAreRead(blocks, sts);
    NonEmpty(text);
  }

  lemma NonEmpty(text: string)
    ensures text == [] ==> Stations(Lines(text)) == []
  {
    if text == [] {
      assert Lines(text) == [[]];
      TooShort([], " NBP ");
    }
  }
}
