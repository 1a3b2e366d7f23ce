/** Strings as the parsers see them: a `string` here is a sequence of bytes. */
module Text {
  import opened MachineInts
  import opened Sequences

  predicate IsBytes(s: string) { forall i :: 0 <= i < |s| ==> s[i] as int < 256 }

  predicate Lacks(s: string, c: char) { forall i :: 0 <= i < |s| ==> s[i] != c }

  // ---------------------------------------------------------------- splitting

  /** Cut at every `sep`. There is always one piece more than there are separators. */
  function Split(s: string, sep: char): (pieces: seq<string>)
    ensures pieces != []
  {
    if s == [] then [[]]
    else if s[0] == sep then [[]] + Split(s[1..], sep)
    else
      var rest := Split(s[1..], sep);
      [[s[0]] + rest[0]] + rest[1..]
  }

  function Join(pieces: seq<string>, sep: char): string
    requires pieces != []
  {
    if |pieces| == 1 then pieces[0] else pieces[0] + [sep] + Join(pieces[1..], sep)
  }

  lemma {:induction false} SplitWhole(s: string, sep: char)
    requires Lacks(s, sep)
    ensures Split(s, sep) == [s]
  {
    if s != [] {
      SplitWhole(s[1..], sep);
      assert [s[0]] + s[1..] == s;
      assert [s[1..]][1..] == [];
    }
  }

  lemma SplitCons(c: char, s: string, sep: char)
    ensures Split([c] + s, sep) ==
            if c == sep then [[]] + Split(s, sep) else [[c] + Split(s, sep)[0]] + Split(s, sep)[1..]
  {
    assert ([c] + s)[1..] == s;
  }

  /** Splitting a concatenation at a separator concatenates the pieces. */
  lemma {:induction false} SplitConcat(s: string, sep: char, t: string)
    ensures Split(s + [sep] + t, sep) == Split(s, sep) + Split(t, sep)
  {
    if s == [] {
      assert s + [sep] + t == [sep] + t;
      SplitCons(sep, t, sep);
    } else {
      var c, s' := s[0], s[1..];
      SplitConcat(s', sep, t);
      assert s == [c] + s' && s + [sep] + t == [c] + (s' + [sep] + t);
      SplitCons(c, s' + [sep] + t, sep);
      SplitCons(c, s', sep);
      var a, b := Split(s', sep), Split(t, sep);
      HeadAndTail(a, b);
      if c == sep {
        Assoc([[]], a, b);
      } else {
        Assoc([[c] + a[0]], a[1..], b);
      }
    }
  }

  /** Splitting undoes joining. */
  lemma {:induction false} SplitJoin(pieces: seq<string>, sep: char)
    requires pieces != [] && forall i :: 0 <= i < |pieces| ==> Lacks(pieces[i], sep)
    ensures Split(Join(pieces, sep), sep) == pieces
  {
    if |pieces| == 1 {
      SplitWhole(pieces[0], sep);
    } else {
      SplitJoin(pieces[1..], sep);
      SplitWhole(pieces[0], sep);
      SplitConcat(pieces[0], sep, Join(pieces[1..], sep));
    }
  }

  lemma {:induction false} JoinSnoc(pieces: seq<string>, last: string, sep: char)
    requires pieces != []
    ensures Join(pieces + [last], sep) == Join(pieces, sep) + [sep] + last
  {
    if |pieces| > 1 {
      assert (pieces + [last])[1..] == pieces[1..] + [last];
      JoinSnoc(pieces[1..], last, sep);
    }
  }

  lemma {:induction false} JoinLacks(pieces: seq<string>, sep: char, c: char)
    requires pieces != [] && c != sep && forall i :: 0 <= i < |pieces| ==> Lacks(pieces[i], c)
    ensures Lacks(Join(pieces, sep), c)
  {
    if |pieces| > 1 {
      JoinLacks(pieces[1..], sep, c);
    }
  }

  // ---------------------------------------------------------------- lines

  function StripCr(line: string): string {
    if line != [] && line[|line| - 1] == '\r' then line[..|line| - 1] else line
  }

  /** Position of the next newline, or the end. */
  method NextNewline(text: string, start: nat) returns (nl: nat)
    requires start <= |text|
    ensures start <= nl <= |text| && (nl < |text| ==> text[nl] == '\n')
    ensures forall k :: start <= k < nl ==> text[k] != '\n'
  {
    nl := start;
    while nl < |text| && text[nl] != '\n'
      invariant start <= nl <= |text| && forall k :: start <= k < nl ==> text[k] != '\n'
    {
      nl := nl + 1;
    }
  }

  // ---------------------------------------------------------------- searching

  /** Position of the first occurrence. */
  function Find(hay: string, needle: string): (r: Option<nat>)
    ensures r.Some? ==> r.value + |needle| <= |hay| && hay[r.value..r.value + |needle|] == needle
  {
    if needle <= hay then Some(0)
    else if hay == [] then None
    else
      match Find(hay[1..], needle)
      case None => None
      case Some(i) => Some(i + 1)
  }

  predicate Contains(hay: string, needle: string) { Find(hay, needle).Some? }

  /** Where the needle first occurs: it starts at the position found and nowhere before. */
  lemma {:induction false} FindFirst(hay: string, needle: string, i: nat)
    requires i <= |hay| && needle <= hay[i..] && forall j :: 0 <= j < i ==> !(needle <= hay[j..])
    ensures Find(hay, needle) == Some(i)
  {
    if i == 0 {
      assert hay[0..] == hay;
    } else {
      assert !(needle <= hay[0..]) && hay[0..] == hay;
      forall j | 0 <= j < i - 1 ensures !(needle <= hay[1..][j..]) {
        assert hay[1..][j..] == hay[j + 1..];
      }
      assert hay[1..][i - 1..] == hay[i..];
      FindFirst(hay[1..], needle, i - 1);
    }
  }

  lemma {:induction false} FindAbsent(hay: string, needle: string)
    ensures Find(hay, needle).None? ==> forall j :: 0 <= j <= |hay| ==> !(needle <= hay[j..])
  {
    assert hay[0..] == hay;
    if Find(hay, needle).None? && hay != [] {
      FindAbsent(hay[1..], needle);
      forall j | 0 <= j <= |hay| ensures !(needle <= hay[j..]) {
        if j > 0 {
          assert hay[1..][j - 1..] == hay[j..];
        }
      }
    }
  }

  lemma {:induction false} TooShort(hay: string, needle: string)
    requires |hay| < |needle|
    ensures Find(hay, needle).None?
  {
    if hay != [] {
      TooShort(hay[1..], needle);
    }
  }

  lemma FoundIsThere(hay: string, needle: string)
    ensures Find(hay, needle).Some? ==> needle <= hay[Find(hay, needle).value..]
  {
    var r := Find(hay, needle);
    if r.Some? {
      assert hay[r.value..][..|needle|] == hay[r.value..r.value + |needle|];
    }
  }

  lemma ContainsMiddle(before: string, needle: string, after: string)
    ensures Contains(before + needle + after, needle)
  {
    var hay := before + needle + after;
    FindAbsent(hay, needle);
    assert needle <= hay[|before|..];
  }

  /** `word` stands at position `i` of the line. */
  ghost predicate HasAt(line: string, word: string, i: nat) { i + |word| <= |line| && line[i..i + |word|] == word }

  ghost predicate Has(line: string, word: string) { exists i: nat :: HasAt(line, word, i) }

  lemma StartsWith(line: string, i: nat, word: string)
    ensures HasAt(line, word, i) <==> i <= |line| && word <= line[i..]
  {
    if i <= |line| && |word| <= |line| - i {
      assert line[i..][..|word|] == line[i..i + |word|];
    }
  }

  lemma HasIsFound(line: string, word: string)
    ensures Find(line, word).None? <==> forall i: nat :: !HasAt(line, word, i)
    ensures Find(line, word).Some? ==> HasAt(line, word, Find(line, word).value)
    ensures Find(line, word).Some? ==> forall i: nat :: i < Find(line, word).value ==> !HasAt(line, word, i)
  {
    FindAbsent(line, word);
    NoneBefore(line, word);
    var r := Find(line, word);
    if r.Some? {
      assert HasAt(line, word, r.value);
    }
    forall i: nat | r.None? || i < r.value ensures !HasAt(line, word, i) {
      StartsWith(line, i, word);
      assert i <= |line| ==> !(word <= line[i..]);
    }
  }

  lemma {:induction false} NoneBefore(line: string, word: string)
    ensures Find(line, word).Some? ==> forall i :: 0 <= i < Find(line, word).value ==> !(word <= line[i..])
  {
    assert line[0..] == line;
    if !(word <= line) && line != [] {
      NoneBefore(line[1..], word);
      forall i | 0 < i <= |line| ensures line[i..] == line[1..][i - 1..] {
      }
    }
  }

  // ---------------------------------------------------------------- words

  /** White space of the C locale. */
  predicate IsSpace(c: char) { c == ' ' || 9 <= c as int <= 13 }

  predicate IsWord(s: string) { s != [] && forall i :: 0 <= i < |s| ==> !IsSpace(s[i]) }

  function WordLength(s: string): (n: nat)
    ensures n <= |s| && (forall i :: 0 <= i < n ==> !IsSpace(s[i])) && (n < |s| ==> IsSpace(s[n]))
  {
    if s == [] || IsSpace(s[0]) then 0 else 1 + WordLength(s[1..])
  }

  /** The maximal runs of characters that are not white space. */
  function Tokens(s: string): (words: seq<string>)
    ensures forall i :: 0 <= i < |words| ==> IsWord(words[i])
    decreases |s|
  {
    if s == [] then []
    else if IsSpace(s[0]) then Tokens(s[1..])
    else
      var n := WordLength(s);
      [s[..n]] + Tokens(s[n..])
  }

  method TokensOf(s: string) returns (out: seq<string>)
    ensures out == Tokens(s)
  {
    out := [];
    var i := 0;
    assert s[0..] == s;
    while i < |s|
      invariant i <= |s| && out + Tokens(s[i..]) == Tokens(s)
    {
      i := SkipSpaces(s, i);
      var j := EndOfWord(s, i);
      if j > i {
        WordAt(s, i, j);
        Assoc(out, [s[i..j]], Tokens(s[j..]));
        out := out + [s[i..j]];
      }
      i := j;
    }
    assert out + [] == out;
  }

  method SkipSpaces(s: string, i: nat) returns (j: nat)
    requires i < |s|
    ensures i <= j <= |s| && (j < |s| ==> !IsSpace(s[j]))
    ensures j == i ==> !IsSpace(s[i])
    ensures Tokens(s[j..]) == Tokens(s[i..])
  {
    j := i;
    while j < |s| && IsSpace(s[j])
      invariant i <= j <= |s| && Tokens(s[j..]) == Tokens(s[i..])
      invariant j == i || IsSpace(s[i])
    {
      assert s[j..][1..] == s[j + 1..];
      j := j + 1;
    }
  }

  method EndOfWord(s: string, i: nat) returns (j: nat)
    requires i <= |s|
    ensures i <= j <= |s| && (forall k :: i <= k < j ==> !IsSpace(s[k])) && (j < |s| ==> IsSpace(s[j]))
  {
    j := i;
    while j < |s| && !IsSpace(s[j])
      invariant i <= j <= |s| && forall k :: i <= k < j ==> !IsSpace(s[k])
    {
      j := j + 1;
    }
  }

  lemma WordAt(s: string, i: nat, j: nat)
    requires i < j <= |s| && (forall k :: i <= k < j ==> !IsSpace(s[k])) && (j < |s| ==> IsSpace(s[j]))
    ensures Tokens(s[i..]) == [s[i..j]] + Tokens(s[j..])
  {
    var t := s[i..];
    WordEndsAt(t, j - i);
    assert t[..j - i] == s[i..j] && t[j - i..] == s[j..];
  }

  lemma {:induction false} WordEndsAt(s: string, n: nat)
    requires n <= |s| && (forall i :: 0 <= i < n ==> !IsSpace(s[i])) && (n < |s| ==> IsSpace(s[n]))
    ensures WordLength(s) == n
  {
    if n > 0 {
      WordEndsAt(s[1..], n - 1);
    }
  }

  lemma TokensWord(word: string, rest: string)
    requires IsWord(word) && (rest != [] ==> IsSpace(rest[0]))
    ensures Tokens(word + rest) == [word] + Tokens(rest)
  {
    var s := word + rest;
    WordEndsAt(s, |word|);
    assert s[..|word|] == word && s[|word|..] == rest;
  }

  lemma {:induction false} SomeWord(s: string, i: nat)
    requires i < |s| && !IsSpace(s[i])
    ensures Tokens(s) != []
  {
    if IsSpace(s[0]) {
      SomeWord(s[1..], i - 1);
    }
  }

  /** A blank, or one of the five control characters from tab to carriage return, parts words. */
  lemma BlanksPart(before: string, c: char, after: string)
    requires c as int in {9, 10, 11, 12, 13, 32}
    ensures Tokens(before + [c] + after) == Tokens(before) + Tokens(after)
  {
    TokensPart(before, [c] + after);
    HeadAndTail([c], after);
    NothingMore(after);
    TokensSkipBlank([c] + after);
    Assoc(before, [c], after);
  }

  lemma {:induction false} TokensPart(before: string, rest: string)
    requires rest != [] && IsSpace(rest[0])
    ensures Tokens(before + rest) == Tokens(before) + Tokens(rest)
    decreases |before|
  {
    if before == [] {
      NothingMore(rest);
      NothingMore(Tokens(rest));
    } else if IsSpace(before[0]) {
      HeadAndTail(before, rest);
      TokensPart(before[1..], rest);
    } else {
      var n := WordLength(before);
      var word, more := before[..n], before[n..];
      CutAt(before, n);
      TokensPart(more, rest);
      Assoc(word, more, rest);
      TokensWord(word, more + rest);
      Assoc([word], Tokens(more), Tokens(rest));
    }
  }

  /** Nothing else does: a text is one word exactly when none of these is in it. */
  lemma OneWord(s: string)
    ensures Tokens(s) == [s] <==> s != [] && forall i :: 0 <= i < |s| ==> s[i] as int !in {9, 10, 11, 12, 13, 32}
  {
    OneToken(s);
    forall i | 0 <= i < |s| ensures IsSpace(s[i]) <==> s[i] as int in {9, 10, 11, 12, 13, 32} {
    }
  }

  lemma OneToken(s: string)
    ensures Tokens(s) == [s] <==> IsWord(s)
  {
    if IsWord(s) {
      NothingMore(s);
      TokensWord(s, []);
    } else if Tokens(s) != [] {
      assert IsWord(Tokens(s)[0]);
    }
  }

  lemma TokensSkipBlank(s: string)
    requires s != [] && IsSpace(s[0])
    ensures Tokens(s) == Tokens(s[1..])
  {
  }

  ghost predicate Blank(s: string) { forall i :: 0 <= i < |s| ==> IsSpace(s[i]) }

  function Among(gap: string, word: string, rest: string): string { gap + word + rest }

  /** The words of a line in order, whatever white space stands before, between and after them. */
  ghost predicate Spells(line: string, words: seq<string>)
    decreases |words|
  {
    if words == [] then Blank(line)
    else
      IsWord(words[0]) && exists gap, rest ::
        && line == Among(gap, words[0], rest) && Blank(gap) && (rest != [] ==> IsSpace(rest[0]))
        && Spells(rest, words[1..])
  }

  lemma {:induction false} TokensPastBlanks(gap: string, rest: string)
    requires Blank(gap)
    ensures Tokens(gap + rest) == Tokens(rest)
  {
    if gap == [] {
      assert gap + rest == rest;
    } else {
      assert (gap + rest)[1..] == gap[1..] + rest;
      TokensPastBlanks(gap[1..], rest);
      TokensSkipBlank(gap + rest);
    }
  }

  lemma WordAmong(gap: string, word: string, rest: string)
    requires Blank(gap) && IsWord(word) && (rest != [] ==> IsSpace(rest[0]))
    ensures Tokens(Among(gap, word, rest)) == [word] + Tokens(rest)
  {
    Assoc(gap, word, rest);
    TokensPastBlanks(gap, word + rest);
    TokensWord(word, rest);
  }

  lemma {:induction false} SpelledAreRead(line: string, words: seq<string>)
    requires Spells(line, words)
    ensures Tokens(line) == words
    decreases |words|
  {
    if words == [] {
      TokensPastBlanks(line, []);
      assert line + [] == line;
    } else {
      var gap, rest :|
        line == Among(gap, words[0], rest) && Blank(gap) && (rest != [] ==> IsSpace(rest[0]))
        && Spells(rest, words[1..]);
      SpelledAreRead(rest, words[1..]);
      WordAmong(gap, words[0], rest);
      Regroup(words, []);
    }
  }

  lemma {:induction false} TokensSpell(line: string)
    ensures Spells(line, Tokens(line))
    decreases |line|
  {
    if line == [] {
      assert Blank(line);
    } else if IsSpace(line[0]) {
      var rest := line[1..];
      TokensSpell(rest);
      BlankInFront(line, Tokens(line));
    } else {
      var n := WordLength(line);
      TokensSpell(line[n..]);
      CutAt(line, n);
      WordInFront(line[..n], line[n..], Tokens(line[n..]));
    }
  }

  lemma WordInFront(word: string, rest: string, words: seq<string>)
    requires IsWord(word) && (rest != [] ==> IsSpace(rest[0])) && Spells(rest, words)
    ensures Spells(word + rest, [word] + words)
  {
    assert word + rest == Among([], word, rest) && Blank([]);
    HeadAndTail([word], words);
    NothingMore(words);
  }

  lemma BlankInFront(line: string, words: seq<string>)
    requires line != [] && IsSpace(line[0]) && Spells(line[1..], words)
    ensures Spells(line, words)
  {
    if words != [] {
      var gap, rest :| line[1..] == Among(gap, words[0], rest) && Blank(gap) && (rest != [] ==> IsSpace(rest[0]))
                       && Spells(rest, words[1..]);
      assert line == Among([line[0]] + gap, words[0], rest);
    } else {
      assert forall i :: 1 <= i < |line| ==> line[i] == line[1..][i - 1];
    }
  }

  /** The tokens of a line are the words it spells, and no others. */
  lemma TokensAreSpelled(line: string, words: seq<string>)
    ensures Tokens(line) == words <==> Spells(line, words)
  {
    TokensSpell(line);
    if Spells(line, words) {
      SpelledAreRead(line, words);
    }
  }
}
