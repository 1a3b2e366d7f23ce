/** Lines as the weather service prints them, and what the two climate-report parsers read off them. */
module PrintedLines {
  import opened MachineInts
  import opened Sequences
  import opened Text
  import opened Decimal
  import opened CliScanning

  const MONTHS: seq<string> := ["JAN", "FEB", "MAR", "APR", "MAY", "JUN", "JUL", "AUG", "SEP", "OCT", "NOV", "DEC"]

  function Padded(n: nat): string { if n < 10 then "0" + Print(n) else Print(n) }

  function DateText(year: nat, month: nat, day: nat): string {
    Print(year) + "-" + Padded(month) + "-" + Padded(day)
  }

  lemma DateIsText(year: int, month: int, day: int)
    requires 1900 <= year <= 2200 && 1 <= month <= 12 && 1 <= day <= 31
    ensures Date(year, month, day) == DateText(year, month, day)
  {
    PaddedDigits(month);
    PaddedDigits(day);
    YearDigits(year);
  }

  lemma PaddedDigits(n: nat)
    requires n < 100
    ensures Padded(n) == Digits2(n)
  {
    if n < 10 {
      assert n / 10 == 0 && n % 10 == n && DigitOf(0) == '0';
    } else {
      assert PrintNat(n) == PrintNat(n / 10) + [DigitOf(n % 10)] && PrintNat(n / 10) == [DigitOf(n / 10)];
    }
  }

  lemma YearDigits(year: nat)
    requires 1000 <= year < 10000
    ensures Print(year) == Digits2(year / 100) + Digits2(year % 100)
  {
    var century := year / 100;
    assert PrintNat(year) == PrintNat(year / 10) + [DigitOf(year % 10)];
    assert year / 10 / 10 == century && PrintNat(year / 10) == PrintNat(century) + [DigitOf(year / 10 % 10)];
    assert 10 <= century < 100 && PrintNat(century) == PrintNat(century / 10) + [DigitOf(century % 10)];
    assert PrintNat(century / 10) == [DigitOf(century / 10)];
    assert year % 100 / 10 == year / 10 % 10 && year % 100 % 10 == year % 10;
    assert Digits2(century) == PrintNat(century);
    assert Digits2(year % 100) == [DigitOf(year / 10 % 10)] + [DigitOf(year % 10)];
  }

  // ---------------------------------------------------------------- lines

  /** Every line but the last, with a carriage return at its end or not. */
  function Ended(lines: seq<string>, cr: bool): (r: seq<string>)
    ensures |r| == |lines|
  {
    if |lines| <= 1 then lines else [lines[0] + (if cr then "\r" else "")] + Ended(lines[1..], cr)
  }

  /** A line that survives being printed and cut out again. */
  ghost predicate Cuttable(line: string, cr: bool) {
    Lacks(line, '\n') && (!cr && line != [] ==> line[|line| - 1] != '\r')
  }

  function PrintLines(lines: seq<string>, cr: bool): string
    requires lines != []
  {
    Join(Ended(lines, cr), '\n')
  }

  lemma LinesOfPrinted(lines: seq<string>, cr: bool)
    requires lines != [] && forall i :: 0 <= i < |lines| ==> Cuttable(lines[i], cr)
    ensures Lines(PrintLines(lines, cr)) == lines
  {
    EndedLack(lines, cr);
    SplitJoin(Ended(lines, cr), '\n');
    EndedAreDropped(lines, cr);
  }

  lemma {:induction false} EndedLack(lines: seq<string>, cr: bool)
    requires forall i :: 0 <= i < |lines| ==> Cuttable(lines[i], cr)
    ensures forall i :: 0 <= i < |lines| ==> Lacks(Ended(lines, cr)[i], '\n')
  {
    if |lines| > 1 {
      EndedLack(lines[1..], cr);
      assert Cuttable(lines[0], cr);
    } else if |lines| == 1 {
      assert Cuttable(lines[0], cr);
    }
  }

  lemma {:induction false} EndedAreDropped(lines: seq<string>, cr: bool)
    requires lines != [] && forall i :: 0 <= i < |lines| ==> Cuttable(lines[i], cr)
    ensures DropCrs(Ended(lines, cr)) == lines
  {
    if |lines| > 1 {
      var first, rest := lines[0] + (if cr then "\r" else ""), lines[1..];
      EndedAreDropped(rest, cr);
      assert Cuttable(lines[0], cr);
      assert StripCr(first) == lines[0];
      assert Ended(lines, cr)[1..] == Ended(rest, cr);
      assert [lines[0]] + rest == lines;
    }
  }

  // ---------------------------------------------------------------- letters of either case

  predicate SameLetter(x: char, y: char) {
    x == y || ('a' <= x <= 'z' && y as int == x as int - 32) || ('a' <= y <= 'z' && x as int == y as int - 32)
  }

  ghost predicate OccursAt(hay: string, needle: string, i: nat) {
    i + |needle| <= |hay| && forall j :: 0 <= j < |needle| ==> SameLetter(hay[i + j], needle[j])
  }

  /** The letters of a keyword occur one after another, in either case. */
  ghost predicate Mentions(line: string, keyword: string) { exists i: nat :: OccursAt(line, keyword, i) }

  lemma OccursInUpper(hay: string, needle: string, i: nat)
    requires i <= |hay|
    ensures OccursAt(hay, needle, i) <==> UpperAll(needle) <= UpperAll(hay)[i..]
  {
    var h, n := UpperAll(hay)[i..], UpperAll(needle);
    if n <= h {
      forall j | 0 <= j < |needle| ensures SameLetter(hay[i + j], needle[j]) {
        assert h[j] == n[j];
      }
    }
    if OccursAt(hay, needle, i) {
      forall j | 0 <= j < |needle| ensures h[j] == n[j] {
        assert SameLetter(hay[i + j], needle[j]);
      }
      assert h[..|n|] == n;
    }
  }

  /** Searching regardless of case finds exactly what occurs letter by letter, up to the case of the
      letters A to Z. */
  lemma CaseAside(hay: string, needle: string)
    ensures FindAnyCase(hay, needle).None? ==> forall i: nat :: !OccursAt(hay, needle, i)
    ensures FindAnyCase(hay, needle).Some? ==> OccursAt(hay, needle, FindAnyCase(hay, needle).value)
  {
    var r := FindAnyCase(hay, needle);
    FindAbsent(UpperAll(hay), UpperAll(needle));
    FoundIsThere(UpperAll(hay), UpperAll(needle));
    if r.Some? {
      OccursInUpper(hay, needle, r.value);
    } else {
      forall i: nat ensures !OccursAt(hay, needle, i) {
        if i <= |hay| {
          OccursInUpper(hay, needle, i);
        }
      }
    }
  }

  lemma MentionIsFound(line: string, keyword: string)
    ensures Mentions(line, keyword) <==> ContainsAnyCase(line, keyword)
  {
    CaseAside(line, keyword);
  }

  lemma UpperConcat(a: string, b: string)
    ensures UpperAll(a + b) == UpperAll(a) + UpperAll(b)
  {
  }

  lemma KeywordIsThere(before: string, keyword: string, after: string)
    ensures ContainsAnyCase(before + keyword + after, keyword)
  {
    UpperConcat(before + keyword, after);
    UpperConcat(before, keyword);
    ContainsMiddle(UpperAll(before), UpperAll(keyword), UpperAll(after));
  }

  /** If what precedes a keyword lacks its first letter, the keyword first occurs in its own place. */
  lemma KeywordIsFirst(before: string, keyword: string, after: string)
    requires keyword != [] && IsUpper(keyword[0])
    requires forall i :: 0 <= i < |before| ==> Upper(before[i]) != keyword[0]
    ensures FindAnyCase(before + keyword + after, keyword) == Some(|before|)
  {
    var line := before + keyword + after;
    var h, n := UpperAll(line), UpperAll(keyword);
    UpperConcat(before + keyword, after);
    UpperConcat(before, keyword);
    assert h[|before|..][..|n|] == n;
    forall j | 0 <= j < |before| ensures !(n <= h[j..]) {
      assert h[j..][0] == Upper(before[j]);
    }
    FindFirst(h, n, |before|);
  }

  // ---------------------------------------------------------------- numbers

  predicate Capitals(s: string) { forall i :: 0 <= i < |s| ==> 'A' <= s[i] <= 'Z' }

  predicate NoDigits(s: string) { forall i :: 0 <= i < |s| ==> !('0' <= s[i] <= '9') }

  /** A run of digits printed in front of something else. */
  lemma {:induction false} RunIsRead(n: nat, rest: string, low: int, high: int)
    requires FitsInt(n) && (rest != [] ==> !IsDigit(rest[0]))
    ensures FirstRun(Print(n) + rest, low, high) == if low <= n <= high then n else FirstRun(rest, low, high)
  {
    var digits := Print(n);
    PrintedDigits(n);
    ReadPrinted(n);
    DigitRunBefore(digits, rest);
    assert (digits + rest)[..|digits|] == digits && (digits + rest)[|digits|..] == rest;
    RunFirst(digits + rest, |digits|, digits, rest, low, high);
  }

  lemma {:induction false} RunIsAhead(gap: string, rest: string, low: int, high: int)
    requires forall i :: 0 <= i < |gap| ==> !IsDigit(gap[i])
    ensures FirstRun(gap + rest, low, high) == FirstRun(rest, low, high)
  {
    if gap == [] {
      assert gap + rest == rest;
    } else {
      assert (gap + rest)[1..] == gap[1..] + rest;
      RunIsAhead(gap[1..], rest, low, high);
    }
  }

  // ---------------------------------------------------------------- months

  ghost predicate MonthBeginsAt(s: string, i: nat) {
    i + 3 <= |s| && (i == 0 || !IsAlpha(s[i - 1])) && UpperAll(s[i..i + 3]) in MONTHS
  }

  /** No word of `s` begins like a month. */
  ghost predicate NoMonthWord(s: string) {
    forall i: nat :: !MonthBeginsAt(s, i)
  }

  lemma MonthNames(m: nat)
    requires 1 <= m <= 12
    ensures MonthName(m) == MONTHS[m - 1] && |MONTHS[m - 1]| == 3
  {
  }

  lemma {:induction false} NumberOfMonth(abbr: string, m: nat, from: nat)
    requires 1 <= from <= m <= 12 && abbr == MONTHS[m - 1]
    ensures MonthNumber(abbr, from) == m
    decreases m - from
  {
    MonthNames(m);
    MonthNames(from);
    if from < m {
      MonthsDiffer(from, m);
      NumberOfMonth(abbr, m, from + 1);
    }
  }

  lemma MonthsDiffer(a: nat, b: nat)
    requires 1 <= a < b <= 12
    ensures MONTHS[a - 1] != MONTHS[b - 1]
  {
    var x, y := MONTHS[a - 1], MONTHS[b - 1];
    assert x[0] != y[0] || x[1] != y[1] || x[2] != y[2];
  }

  lemma {:induction false} NoMonthNumber(abbr: string, from: nat)
    requires 1 <= from <= 13 && abbr !in MONTHS
    ensures MonthNumber(abbr, from) == 0
    decreases 13 - from
  {
    if from < 13 {
      MonthNames(from);
      NoMonthNumber(abbr, from + 1);
    }
  }

  /** A month's name after words that are none is the month of the line, and what follows it follows. */
  lemma MonthIsRead(before: string, word: string, after: string, month: nat)
    requires 1 <= month <= 12 && |word| >= 3 && UpperAll(word[..3]) == MONTHS[month - 1]
    requires forall i :: 0 <= i < |word| ==> IsAlpha(word[i])
    requires before == [] || !IsAlpha(before[|before| - 1])
    requires after == [] || !IsAlpha(after[0])
    requires NoMonthWord(before)
    ensures MonthOf(before + word + after) == month && AfterMonth(before + word + after) == after
  {
    var line, i, j := before + word + after, |before|, |before| + |word|;
    WordBetween(before, word, after);
    assert line[i..j] == word && line[j..] == after;
    NumberOfMonth(UpperAll(word[..3]), month, 1);
    EarlierWordsAreNone(before, line);
    FirstMonthIsIt(line, i, j);
  }

  lemma WordBetween(before: string, word: string, after: string)
    requires word != [] && forall i :: 0 <= i < |word| ==> IsAlpha(word[i])
    requires before == [] || !IsAlpha(before[|before| - 1])
    requires after == [] || !IsAlpha(after[0])
    ensures WholeWord(before + word + after, |before|, |before| + |word|)
  {
  }

  lemma FirstMonthIsIt(line: string, i: nat, j: nat)
    requires FirstMonthWord(line, 0, i, j)
    ensures MonthOf(line) == MonthOfWord(line[i..j]) && AfterMonth(line) == line[j..]
  {
    MonthIsOfWholeWord(line);
    var a, b :| Names(line, 0, a, b, MonthOf(line), AfterMonth(line));
    FirstIsUnique(line, i, j, a, b);
  }

  lemma EarlierWordsAreNone(before: string, line: string)
    requires before <= line && NoMonthWord(before)
    ensures NoMonthBy(line, 0, |before|)
  {
    forall a, b | 0 <= a && b <= |before| && WholeWord(line, a, b) ensures MonthOfWord(line[a..b]) == 0 {
      if b - a >= 3 {
        assert line[a..b][..3] == before[a..a + 3];
        assert a > 0 ==> before[a - 1] == line[a - 1];
        assert !MonthBeginsAt(before, a);
        NoMonthNumber(UpperAll(before[a..a + 3]), 1);
      }
    }
  }

  lemma FirstIsUnique(line: string, i: int, j: int, a: int, b: int)
    requires FirstMonthWord(line, 0, i, j) && FirstMonthWord(line, 0, a, b)
    ensures i == a && j == b
  {
    OneWordAt(line, i, j);
    OneWordAt(line, a, b);
  }

  lemma {:induction false} NoRunWithoutDigits(s: string, low: int, high: int)
    requires NoDigits(s)
    ensures FirstRun(s, low, high) == 0
  {
    if s != [] {
      NoRunWithoutDigits(s[1..], low, high);
    }
  }

  lemma MonthNameIsRead(name: string, month: nat)
    requires 1 <= month <= 12 && OccursAt(name, MONTHS[month - 1], 0) && |name| >= 3
    ensures UpperAll(name[..3]) == MONTHS[month - 1]
  {
    OccursInUpper(name, MONTHS[month - 1], 0);
    MonthNames(month);
    assert UpperAll(MONTHS[month - 1]) == MONTHS[month - 1];
    assert UpperAll(name)[0..] == UpperAll(name);
    assert UpperAll(name[..3]) == UpperAll(name)[..3];
  }
}
