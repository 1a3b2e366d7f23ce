/** What the two climate-report parsers share: cutting a product into lines, searching without regard
    to letter case, and finding months and numbers on a line. */
module CliScanning {
  import opened MachineInts
  import opened Sequences
  import opened Text
  import opened Decimal

  // ---------------------------------------------------------------- lines

  /** Every line but the last loses a carriage return at its end. */
  function DropCrs(pieces: seq<string>): seq<string>
    requires pieces != []
  {
    if |pieces| == 1 then pieces else [StripCr(pieces[0])] + DropCrs(pieces[1..])
  }

  function Lines(text: string): seq<string> { DropCrs(Split(text, '\n')) }

  method LinesOf(text: string) returns (out: seq<string>)
    ensures out == Lines(text)
  {
    out := [];
    var start := 0;
    assert text[0..] == text;
    while true
      invariant start <= |text| && out + Lines(text[start..]) == Lines(text)
      decreases |text| - start
    {
      var nl := NextNewline(text, start);
      NextPiece(text, start, nl);
      if nl == |text| {
        out := out + [text[start..]];
        return;
      }
      Assoc(out, [StripCr(text[start..nl])], Lines(text[nl + 1..]));
      out := out + [StripCr(text[start..nl])];
      start := nl + 1;
    }
  }

  lemma NextPiece(text: string, start: nat, nl: nat)
    requires start <= nl <= |text| && (nl < |text| ==> text[nl] == '\n')
    requires forall k :: start <= k < nl ==> text[k] != '\n'
    ensures nl == |text| ==> Lines(text[start..]) == [text[start..]]
    ensures nl < |text| ==> Lines(text[start..]) == [StripCr(text[start..nl])] + Lines(text[nl + 1..])
  {
    var piece := text[start..nl];
    SplitWhole(piece, '\n');
    if nl < |text| {
      var rest := text[nl + 1..];
      assert text[start..] == piece + ['\n'] + rest;
      SplitConcat(piece, '\n', rest);
      assert ([piece] + Split(rest, '\n'))[1..] == Split(rest, '\n');
    } else {
      assert text[start..] == piece;
    }
  }

  // ---------------------------------------------------------------- case-insensitive search

  function Upper(c: char): char { if 'a' <= c <= 'z' then (c as int - 32) as char else c }

  function UpperAll(s: string): (r: string)
    ensures |r| == |s| && forall i :: 0 <= i < |s| ==> r[i] == Upper(s[i])
  {
    seq(|s|, i requires 0 <= i < |s| => Upper(s[i]))
  }

  /** The first place where the needle occurs, letter case aside. */
  function FindAnyCase(hay: string, needle: string): (r: Option<nat>)
    ensures r.Some? ==> r.value + |needle| <= |hay|
  {
    Find(UpperAll(hay), UpperAll(needle))
  }

  predicate ContainsAnyCase(hay: string, needle: string) { FindAnyCase(hay, needle).Some? }

  method IFind(hay: string, needle: string) returns (r: Option<nat>)
    ensures r == FindAnyCase(hay, needle)
  {
    if |needle| > |hay| {
      TooShort(UpperAll(hay), UpperAll(needle));
      return None;
    }
    var h, n := UpperAll(hay), UpperAll(needle);
    var i := 0;
    while i + |needle| <= |hay|
      invariant i <= |hay| && forall j :: 0 <= j < i ==> !(n <= h[j..])
    {
      var ok := MatchesAt(hay, needle, i);
      if ok {
        FindFirst(h, n, i);
        return Some(i);
      }
      i := i + 1;
    }
    FoundIsThere(h, n);
    r := None;
  }

  method MatchesAt(hay: string, needle: string, i: nat) returns (ok: bool)
    requires i + |needle| <= |hay|
    ensures ok <==> UpperAll(needle) <= UpperAll(hay)[i..]
  {
    ghost var h, n := UpperAll(hay)[i..], UpperAll(needle);
    for j := 0 to |needle|
      invariant n[..j] == h[..j]
    {
      if Upper(hay[i + j]) != Upper(needle[j]) {
        assert n[j] != h[j];
        return false;
      }
      assert n[..j + 1] == n[..j] + [n[j]] && h[..j + 1] == h[..j] + [h[j]];
    }
    assert n[..|needle|] == n;
    ok := true;
  }

  // ---------------------------------------------------------------- month, year, station

  predicate IsAlpha(c: char) { 'a' <= c <= 'z' || 'A' <= c <= 'Z' }

  predicate IsUpper(c: char) { 'A' <= c <= 'Z' }

  function MonthName(m: nat): string {
    match m
    case 1 => "JAN" case 2 => "FEB" case 3 => "MAR" case 4 => "APR" case 5 => "MAY" case 6 => "JUN"
    case 7 => "JUL" case 8 => "AUG" case 9 => "SEP" case 10 => "OCT" case 11 => "NOV" case 12 => "DEC"
    case _ => ""
  }

  /** The number of a month abbreviation in capitals among the months from `m` on; 0 if there is none. */
  function MonthNumber(abbr: string, m: nat): (n: int)
    requires 1 <= m <= 13
    ensures 0 <= n <= 12
    decreases 13 - m
  {
    if m == 13 then 0 else if MonthName(m) == abbr then m else MonthNumber(abbr, m + 1)
  }

  function AlphaRun(s: string): (n: nat)
    ensures n <= |s| && (forall i :: 0 <= i < n ==> IsAlpha(s[i])) && (n < |s| ==> !IsAlpha(s[n]))
  {
    if s == [] || !IsAlpha(s[0]) then 0 else 1 + AlphaRun(s[1..])
  }

  /** The month a whole word begins with. */
  function MonthOfWord(word: string): (m: int)
    ensures 0 <= m <= 12
  {
    if |word| < 3 then 0 else MonthNumber(UpperAll(word[..3]), 1)
  }

  /** The month named by the first word that names one; 0 if none does. */
  function MonthOf(line: string): (m: int)
    ensures 0 <= m <= 12
    decreases |line|
  {
    if line == [] then 0
    else if !IsAlpha(line[0]) then MonthOf(line[1..])
    else
      var n := AlphaRun(line);
      if MonthOfWord(line[..n]) != 0 then MonthOfWord(line[..n]) else MonthOf(line[n..])
  }

  /** What follows that word on the line. */
  function AfterMonth(line: string): string
    decreases |line|
  {
    if line == [] then []
    else if !IsAlpha(line[0]) then AfterMonth(line[1..])
    else
      var n := AlphaRun(line);
      if MonthOfWord(line[..n]) != 0 then line[n..] else AfterMonth(line[n..])
  }

  /** The word at the start of `t`, read for a month. */
  lemma WordFirst(t: string, n: nat, word: string, rest: string)
    requires t != [] && IsAlpha(t[0]) && n == AlphaRun(t) && word == t[..n] && rest == t[n..]
    ensures n > 0
    ensures MonthOf(t) == (if MonthOfWord(word) != 0 then MonthOfWord(word) else MonthOf(rest))
    ensures AfterMonth(t) == (if MonthOfWord(word) != 0 then rest else AfterMonth(rest))
  {
  }

  method MonthNum(line: string) returns (m: int, end: nat)
    ensures m == MonthOf(line)
    ensures m != 0 ==> end <= |line| && line[end..] == AfterMonth(line)
  {
    m, end := 0, 0;
    var i := 0;
    assert line[0..] == line;
    while i < |line|
      invariant i <= |line| && MonthOf(line[i..]) == MonthOf(line) && AfterMonth(line[i..]) == AfterMonth(line)
    {
      i := SkipNonAlpha(line, i);
      if i < |line| {
        m, i := WordMonth(line, i);
        if m != 0 {
          return m, i;
        }
      }
    }
  }

  /** The month of the word at `i`, and where that word ends. */
  method WordMonth(line: string, i: nat) returns (m: int, j: nat)
    requires i < |line| && IsAlpha(line[i])
    ensures i < j <= |line|
    ensures MonthOf(line[i..]) == (if m != 0 then m else MonthOf(line[j..]))
    ensures AfterMonth(line[i..]) == (if m != 0 then line[j..] else AfterMonth(line[j..]))
  {
    j := i + AlphaRun(line[i..]);
    SliceOfTail(line, i, j - i);
    var word := line[i..j];
    WordFirst(line[i..], j - i, word, line[j..]);
    m := MonthOfWord(word);
  }

  lemma SliceOfTail(line: string, i: nat, n: nat)
    requires i <= |line| && n <= |line| - i
    ensures line[i..][..n] == line[i..i + n] && line[i..][n..] == line[i + n..]
  {
  }

  method SkipNonAlpha(line: string, i: nat) returns (j: nat)
    requires i < |line|
    ensures i <= j <= |line| && (j < |line| ==> IsAlpha(line[j]))
    ensures j == i ==> IsAlpha(line[i])
    ensures MonthOf(line[j..]) == MonthOf(line[i..]) && AfterMonth(line[j..]) == AfterMonth(line[i..])
  {
    j := i;
    while j < |line| && !IsAlpha(line[j])
      invariant i <= j <= |line|
      invariant MonthOf(line[j..]) == MonthOf(line[i..]) && AfterMonth(line[j..]) == AfterMonth(line[i..])
      invariant j == i || !IsAlpha(line[i])
    {
      assert line[j..][1..] == line[j + 1..];
      j := j + 1;
    }
  }

  /** A maximal run of letters. */
  predicate WholeWord(line: string, i: int, j: int) {
    && 0 <= i < j <= |line| && (forall k :: i <= k < j ==> IsAlpha(line[k]))
    && (i > 0 ==> !IsAlpha(line[i - 1])) && (j < |line| ==> !IsAlpha(line[j]))
  }

  /** No whole word from `p` on that ends by `end` names a month. */
  ghost predicate NoMonthBy(line: string, p: int, end: int) {
    forall a, b :: p <= a && b <= end && WholeWord(line, a, b) ==> MonthOfWord(line[a..b]) == 0
  }

  ghost predicate FirstMonthWord(line: string, p: int, i: int, j: int) {
    p <= i && WholeWord(line, i, j) && MonthOfWord(line[i..j]) != 0 && NoMonthBy(line, p, i)
  }

  /** `m` and `after` are the month and what follows it, by that word. */
  ghost predicate Names(line: string, p: int, i: int, j: int, m: int, after: string) {
    FirstMonthWord(line, p, i, j) && m == MonthOfWord(line[i..j]) && after == line[j..]
  }

  /** The month is that of the first whole word that begins like a month, so a month's letters inside
      a longer word do not count; and it is found if there is any. */
  lemma MonthIsOfWholeWord(line: string)
    ensures MonthOf(line) != 0 ==> exists i, j :: Names(line, 0, i, j, MonthOf(line), AfterMonth(line))
    ensures MonthOf(line) == 0 <==> NoMonthBy(line, 0, |line|)
  {
    assert line[0..] == line;
    MonthFrom(line, 0);
  }

  lemma {:induction false} MonthFrom(line: string, p: nat)
    requires p <= |line| && (0 < p < |line| ==> !IsAlpha(line[p - 1]) || !IsAlpha(line[p]))
    ensures MonthOf(line[p..]) != 0 ==> exists i, j :: Names(line, p, i, j, MonthOf(line[p..]), AfterMonth(line[p..]))
    ensures MonthOf(line[p..]) == 0 ==> NoMonthBy(line, p, |line|)
    decreases |line| - p
  {
    var t := line[p..];
    if p == |line| {
    } else if !IsAlpha(line[p]) {
      assert t[1..] == line[p + 1..];
      MonthFrom(line, p + 1);
      if MonthOf(t) != 0 {
        var i, j :| Names(line, p + 1, i, j, MonthOf(t), AfterMonth(t));
        assert Names(line, p, i, j, MonthOf(t), AfterMonth(t));
      }
    } else {
      var q := p + AlphaRun(t);
      SliceOfTail(line, p, q - p);
      WordFirst(t, q - p, line[p..q], line[q..]);
      assert forall k :: p <= k < q ==> line[k] == t[k - p];
      assert q < |line| ==> line[q] == t[q - p];
      assert WholeWord(line, p, q);
      if MonthOfWord(line[p..q]) != 0 {
        assert Names(line, p, p, q, MonthOf(t), AfterMonth(t));
      } else {
        MonthFrom(line, q);
        OneWordAt(line, p, q);
        if MonthOf(t) != 0 {
          var i, j :| Names(line, q, i, j, MonthOf(t), AfterMonth(t));
          assert Names(line, p, i, j, MonthOf(t), AfterMonth(t));
        }
      }
    }
  }

  /** Whole words do not overlap. */
  lemma OneWordAt(line: string, p: int, q: int)
    requires WholeWord(line, p, q)
    ensures forall a, b :: WholeWord(line, a, b) && p <= a < q ==> a == p && b == q
  {
  }

  /** A run of digits as an `int`; zero when it does not fit. */
  function RunValue(digits: string): int {
    match ReadInt(digits)
    case Value(v, _) => v
    case _ => 0
  }

  predicate IsYear(v: int) { 1900 <= v <= 2200 }

  /** The first run of digits whose value lies between two positive bounds; 0 if none does. */
  function FirstRun(line: string, low: int, high: int): (v: int)
    ensures v == 0 || low <= v <= high
    decreases |line|
  {
    if line == [] then 0
    else if !IsDigit(line[0]) then FirstRun(line[1..], low, high)
    else
      var n := DigitRun(line);
      var v := RunValue(line[..n]);
      if low <= v <= high then v else FirstRun(line[n..], low, high)
  }

  function RunFrom(line: string, p: nat, low: int, high: int): int {
    if p <= |line| then FirstRun(line[p..], low, high) else 0
  }

  lemma RunSkips(line: string, p: nat, low: int, high: int)
    requires p < |line| && !IsDigit(line[p])
    ensures RunFrom(line, p, low, high) == RunFrom(line, p + 1, low, high)
  {
    assert line[p..][1..] == line[p + 1..];
  }

  /** The character that ends a run of digits cannot begin another, so it may be skipped too. */
  lemma RunFollows(line: string, p: nat, q: nat, low: int, high: int)
    requires p < |line| && IsDigit(line[p]) && q == p + DigitRun(line[p..])
    ensures p < q <= |line|
    ensures RunFrom(line, p, low, high) ==
            (if low <= RunValue(line[p..q]) <= high then RunValue(line[p..q]) else RunFrom(line, q + 1, low, high))
  {
    SliceOfTail(line, p, q - p);
    RunFirst(line[p..], q - p, line[p..q], line[q..], low, high);
    if q < |line| {
      RunSkips(line, q, low, high);
    } else {
      NoRunAtEnd(line, low, high);
    }
  }

  /** The run at the start of `t`. */
  lemma {:induction false} RunFirst(t: string, n: nat, digits: string, rest: string, low: int, high: int)
    requires t != [] && IsDigit(t[0]) && n == DigitRun(t) && digits == t[..n] && rest == t[n..]
    ensures n > 0
    ensures FirstRun(t, low, high) ==
            if low <= RunValue(digits) <= high then RunValue(digits) else FirstRun(rest, low, high)
  {
  }

  lemma NoRunAtEnd(line: string, low: int, high: int)
    ensures RunFrom(line, |line|, low, high) == 0 == RunFrom(line, |line| + 1, low, high)
    ensures DigitRun(line[|line|..]) == 0
  {
    assert line[|line|..] == [];
  }

  /** The next run of digits from `p` on, empty at the end of the line. */
  method NextRun(line: string, p: nat) returns (from: nat, to: nat)
    requires p < |line|
    ensures p <= from <= to <= |line| && (from == to ==> to == |line|)
    ensures forall low, high :: RunFrom(line, p, low, high) ==
              if from < to && low <= RunValue(line[from..to]) <= high then RunValue(line[from..to])
              else RunFrom(line, to + 1, low, high)
  {
    from := FirstDigit(line, p);
    to := from + DigitRun(line[from..]);
    forall low, high
      ensures RunFrom(line, p, low, high) ==
              if from < to && low <= RunValue(line[from..to]) <= high then RunValue(line[from..to])
              else RunFrom(line, to + 1, low, high)
    {
      assert RunFrom(line, p, low, high) == RunFrom(line, from, low, high);
      if from < |line| {
        RunFollows(line, from, to, low, high);
      } else {
        NoRunAtEnd(line, low, high);
      }
    }
  }

  method FirstDigit(line: string, p: nat) returns (from: nat)
    requires p < |line|
    ensures p <= from <= |line| && (from < |line| ==> IsDigit(line[from]))
    ensures forall low, high :: RunFrom(line, p, low, high) == RunFrom(line, from, low, high)
  {
    from := p;
    while from < |line| && !IsDigit(line[from])
      invariant p <= from <= |line|
      invariant forall low, high :: RunFrom(line, p, low, high) == RunFrom(line, from, low, high)
    {
      forall low, high ensures RunFrom(line, from, low, high) == RunFrom(line, from + 1, low, high) {
        RunSkips(line, from, low, high);
      }
      from := from + 1;
    }
  }

  // ---------------------------------------------------------------- dates

  function Digits2(n: int): string
    requires 0 <= n < 100
  {
    [DigitOf(n / 10), DigitOf(n % 10)]
  }

  /** YYYY-MM-DD. */
  function Date(year: int, month: int, day: int): (d: string)
    requires 0 <= year < 10000 && 0 <= month < 100 && 0 <= day < 100
    ensures |d| == 10
  {
    Digits2(year / 100) + Digits2(year % 100) + "-" + Digits2(month) + "-" + Digits2(day)
  }

  /** The date can be read back: dates with different fields differ. */
  lemma DateIsInjective(y: int, m: int, d: int, y': int, m': int, d': int)
    requires 0 <= y < 10000 && 0 <= m < 100 && 0 <= d < 100 && 0 <= y' < 10000 && 0 <= m' < 100 && 0 <= d' < 100
    requires Date(y, m, d) == Date(y', m', d')
    ensures y == y' && m == m' && d == d'
  {
    var a, b := Date(y, m, d), Date(y', m', d');
    assert a[0] == b[0] && a[1] == b[1] && a[2] == b[2] && a[3] == b[3];
    assert a[5] == b[5] && a[6] == b[6] && a[8] == b[8] && a[9] == b[9];
  }
}
