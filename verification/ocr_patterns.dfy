/** `extractBillPatterns` of src/services/ocrService.js. Each regular
    expression is modelled by a function giving, for a start position, the
    match the backtracking engine reports there (alternatives and greedy
    quantifiers tried in the engine's order), and each `while (exec)` loop
    by a left-to-right scan that resumes at the end of every match. */
module OcrPatterns {
  import opened Js
  import opened Text

  // ---------------------------------------------------------------------
  // Character runs
  // ---------------------------------------------------------------------

  /** n ASCII digits (`\d`) start at position i. */
  predicate DigitsAt(text: string, i: nat, n: nat) {
    i + n <= |text| && forall k :: i <= k < i + n ==> IsDigit(text[k])
  }

  lemma DigitsAtSlice(text: string, i: nat, n: nat)
    requires i + n <= |text|
    ensures DigitsAt(text, i, n) <==> AllDigits(text[i..i + n])
  {
    var t := text[i..i + n];
    assert forall k :: 0 <= k < n ==> t[k] == text[i + k];
  }

  /** End of the longest run of characters satisfying `\d` from k on. */
  function DigitRun(text: string, k: nat): (e: nat)
    requires k <= |text|
    ensures k <= e <= |text| && DigitsAt(text, k, e - k)
    ensures e == |text| || !IsDigit(text[e])
    decreases |text| - k
  {
    if k < |text| && IsDigit(text[k]) then DigitRun(text, k + 1) else k
  }

  /** End of the longest run of `\s` characters from k on. */
  function WhitespaceRun(text: string, k: nat): (e: nat)
    requires k <= |text|
    ensures k <= e <= |text|
    ensures forall j :: k <= j < e ==> IsWhitespace(text[j])
    ensures e == |text| || !IsWhitespace(text[e])
    decreases |text| - k
  {
    if k < |text| && IsWhitespace(text[k]) then WhitespaceRun(text, k + 1) else k
  }

  /** `[\s:]` */
  predicate IsLabelSeparator(c: char) {
    IsWhitespace(c) || c == ':'
  }

  /** End of the longest run of `[\s:]` characters from k on. */
  function LabelSeparatorRun(text: string, k: nat): (e: nat)
    requires k <= |text|
    ensures k <= e <= |text|
    ensures forall j :: k <= j < e ==> IsLabelSeparator(text[j])
    ensures e == |text| || !IsLabelSeparator(text[e])
    decreases |text| - k
  {
    if k < |text| && IsLabelSeparator(text[k]) then LabelSeparatorRun(text, k + 1) else k
  }

  // ---------------------------------------------------------------------
  // Matches
  // ---------------------------------------------------------------------

  datatype Pattern = DatePattern | AmountPattern | CptPattern | IcdPattern | AccountPattern

  /** A match starting at some position: where it ends, and where the
      capture group the loop reads starts and ends. */
  datatype Match = Match(end: nat, groupStart: nat, groupEnd: nat)

  /** `[\/\-]` */
  predicate IsDateSeparator(c: char) {
    c == '/' || c == '-'
  }

  /** The lengths of the three digit groups of a date. */
  datatype DateParts = DateParts(month: nat, day: nat, year: nat)

  /** s is `\d{month} sep \d{day} sep \d{year}` with the given lengths. */
  predicate DateSplit(s: string, p: DateParts) {
    && 1 <= p.month <= 2 && 1 <= p.day <= 2 && 2 <= p.year <= 4
    && |s| == p.month + p.day + p.year + 2
    && AllDigits(s[..p.month])
    && IsDateSeparator(s[p.month])
    && AllDigits(s[p.month + 1..p.month + 1 + p.day])
    && IsDateSeparator(s[p.month + 1 + p.day])
    && AllDigits(s[p.month + p.day + 2..])
  }

  /** 1-2 digits, separator, 1-2 digits, separator, 2-4 digits. */
  ghost predicate DateForm(s: string) {
    exists p: DateParts :: DateSplit(s, p)
  }

  /** `(\d{2,4})\b` at k: four digits are tried first, then three, then two. */
  function YearAt(text: string, k: nat): (y: Option<nat>)
    ensures y.Some? ==> 2 <= y.value <= 4 && DigitsAt(text, k, y.value) && Boundary(text, k + y.value)
  {
    if DigitsAt(text, k, 4) && Boundary(text, k + 4) then Some(4)
    else if DigitsAt(text, k, 3) && Boundary(text, k + 3) then Some(3)
    else if DigitsAt(text, k, 2) && Boundary(text, k + 2) then Some(2)
    else None
  }

  /** `(\d{1,2})[\/\-]` followed by the year, two digits tried first. */
  function DayYearAt(text: string, j: nat): (r: Option<(nat, nat)>)
    ensures r.Some? ==>
      && 1 <= r.value.0 <= 2
      && DigitsAt(text, j, r.value.0) && j + r.value.0 < |text| && IsDateSeparator(text[j + r.value.0])
      && YearAt(text, j + r.value.0 + 1) == Some(r.value.1)
  {
    if DigitsAt(text, j, 2) && j + 2 < |text| && IsDateSeparator(text[j + 2]) && YearAt(text, j + 3).Some? then
      Some((2, YearAt(text, j + 3).value))
    else if DigitsAt(text, j, 1) && j + 1 < |text| && IsDateSeparator(text[j + 1]) && YearAt(text, j + 2).Some? then
      Some((1, YearAt(text, j + 2).value))
    else None
  }

  function DateLength(p: DateParts): nat {
    p.month + p.day + p.year + 2
  }

  /** The digit groups and separators of a date with lengths p lie in the
      text from position i on. */
  predicate DateInText(text: string, i: nat, p: DateParts) {
    && 1 <= p.month <= 2 && 1 <= p.day <= 2 && 2 <= p.year <= 4
    && DigitsAt(text, i, p.month) && i + p.month < |text| && IsDateSeparator(text[i + p.month])
    && DigitsAt(text, i + p.month + 1, p.day) && i + p.month + 1 + p.day < |text|
    && IsDateSeparator(text[i + p.month + 1 + p.day])
    && DigitsAt(text, i + p.month + p.day + 2, p.year)
  }

  /** `(\d{month})[\/\-]` at i followed by the day and year. */
  function MonthDateAt(text: string, i: nat, month: nat): (r: Option<DateParts>)
    requires 1 <= month <= 2
    ensures r.Some? ==> r.value.month == month && DateInText(text, i, r.value) && Boundary(text, i + DateLength(r.value))
  {
    if DigitsAt(text, i, month) && i + month < |text| && IsDateSeparator(text[i + month])
       && DayYearAt(text, i + month + 1).Some?
    then
      var j := i + month + 1;
      var dy := DayYearAt(text, j).value;
      var p := DateParts(month, dy.0, dy.1);
      assert j + p.day + 1 + p.year == i + DateLength(p);
      Some(p)
    else None
  }

  /** `\b(\d{1,2})[\/\-](\d{1,2})[\/\-](\d{2,4})\b` at i: a two-digit
      month is tried first, then a one-digit month. */
  function DateAt(text: string, i: nat): (r: Option<DateParts>)
    ensures r.Some? ==> Boundary(text, i) && DateInText(text, i, r.value) && Boundary(text, i + DateLength(r.value))
  {
    if !Boundary(text, i) then None
    else if MonthDateAt(text, i, 2).Some? then MonthDateAt(text, i, 2)
    else MonthDateAt(text, i, 1)
  }

  /** The year group has one length only: a shorter one would end inside
      the digits, a longer one would run past the boundary. */
  lemma YearAtFinds(text: string, k: nat, y: nat)
    requires 2 <= y <= 4 && DigitsAt(text, k, y) && Boundary(text, k + y)
    ensures YearAt(text, k) == Some(y)
  {
    assert !WordAt(text, k + y);
    if y < 4 {
      assert !DigitsAt(text, k, 4) by { assert k + y < |text| ==> !IsDigit(text[k + y]); }
    }
    if y < 3 {
      assert !DigitsAt(text, k, 3) by { assert k + y < |text| ==> !IsDigit(text[k + y]); }
    }
    if y > 2 {
      assert !Boundary(text, k + 2) by { assert IsDigit(text[k + 1]) && IsDigit(text[k + 2]); }
    }
    if y > 3 {
      assert !Boundary(text, k + 3) by { assert IsDigit(text[k + 2]) && IsDigit(text[k + 3]); }
    }
  }

  /** The day group is followed by a separator, so only one day length fits. */
  lemma DayYearAtFinds(text: string, j: nat, d: nat, y: nat)
    requires 1 <= d <= 2 && DigitsAt(text, j, d) && j + d < |text| && IsDateSeparator(text[j + d])
    requires 2 <= y <= 4 && DigitsAt(text, j + d + 1, y) && Boundary(text, j + d + 1 + y)
    ensures DayYearAt(text, j) == Some((d, y))
  {
    YearAtFinds(text, j + d + 1, y);
    if d == 1 {
      assert !IsDigit(text[j + 1]);
    }
  }

  /** A date whose month has the given length is found by that attempt. */
  lemma MonthDateAtFinds(text: string, i: nat, p: DateParts)
    requires DateInText(text, i, p) && Boundary(text, i + DateLength(p))
    ensures MonthDateAt(text, i, p.month) == Some(p)
  {
    var j := i + p.month + 1;
    assert j + p.day + 1 + p.year == i + DateLength(p);
    DayYearAtFinds(text, j, p.day, p.year);
    assert DayYearAt(text, j) == Some((p.day, p.year));
  }

  /** Completeness: every date at i with `\b` on both sides is the one
      DateAt reports, so the split of a date is unique. */
  lemma {:induction false} DateAtComplete(text: string, i: nat, p: DateParts)
    requires Boundary(text, i) && DateInText(text, i, p) && Boundary(text, i + DateLength(p))
    ensures DateAt(text, i) == Some(p)
  {
    MonthDateAtFinds(text, i, p);
    if p.month == 1 {
      assert !IsDigit(text[i + 1]);
      assert MonthDateAt(text, i, 2).None?;
    }
  }

  /** The positions of a date in the text give the split of the matched
      substring. */
  lemma DateSplitOfText(text: string, i: nat, p: DateParts)
    requires DateInText(text, i, p)
    ensures i + DateLength(p) <= |text|
    ensures DateSplit(text[i..i + DateLength(p)], p)
  {
    var s := text[i..i + DateLength(p)];
    assert forall k :: 0 <= k < |s| ==> s[k] == text[i + k];
    assert AllDigits(s[..p.month]) by {
      var t := s[..p.month];
      assert forall k :: 0 <= k < p.month ==> t[k] == text[i + k];
    }
    assert AllDigits(s[p.month + 1..p.month + 1 + p.day]) by {
      var t := s[p.month + 1..p.month + 1 + p.day];
      assert forall k :: 0 <= k < p.day ==> t[k] == text[i + p.month + 1 + k];
    }
    assert AllDigits(s[p.month + p.day + 2..]) by {
      var t := s[p.month + p.day + 2..];
      assert forall k :: 0 <= k < p.year ==> t[k] == text[i + p.month + p.day + 2 + k];
    }
  }

  /** `\d{1,3}` at k, three digits tried first; 0 when no digit is there. */
  function LeadingDigits(text: string, k: nat): (n: nat)
    requires k <= |text|
    ensures n <= 3 && DigitsAt(text, k, n)
    ensures n < 3 ==> !DigitsAt(text, k, n + 1)
  {
    if DigitsAt(text, k, 3) then 3
    else if DigitsAt(text, k, 2) then 2
    else if DigitsAt(text, k, 1) then 1
    else 0
  }

  /** `(?:,\d{3})*` at k, repeated as often as it matches. */
  function ThousandsEnd(text: string, k: nat): (e: nat)
    requires k <= |text|
    ensures k <= e <= |text|
    decreases |text| - k
  {
    if k + 4 <= |text| && text[k] == ',' && DigitsAt(text, k + 1, 3) then ThousandsEnd(text, k + 4) else k
  }

  /** `(?:\.\d{2})?` at k, taken when it matches. */
  function CentsEnd(text: string, k: nat): (e: nat)
    requires k <= |text|
    ensures e == k || (e == k + 3 <= |text| && text[k] == '.' && DigitsAt(text, k + 1, 2))
  {
    if k + 3 <= |text| && text[k] == '.' && DigitsAt(text, k + 1, 2) then k + 3 else k
  }

  /** `\$\s*(\d{1,3}(?:,\d{3})*(?:\.\d{2})?)` at i. Nothing follows the
      group, so the first choice of every greedy quantifier succeeds. */
  function AmountAt(text: string, i: nat): (m: Option<Match>)
    ensures m.Some? ==> i < |text| && text[i] == '$' && i < m.value.groupStart < m.value.groupEnd == m.value.end <= |text|
    ensures m.Some? ==> forall k :: i < k < m.value.groupStart ==> IsWhitespace(text[k])
    ensures m.Some? ==> IsDigit(text[m.value.groupStart])
    ensures m.None? <==> i >= |text| || text[i] != '$' || !DigitsAt(text, WhitespaceRun(text, i + 1), 1)
  {
    if i < |text| && text[i] == '$' then
      var start := WhitespaceRun(text, i + 1);
      var lead := LeadingDigits(text, start);
      if lead == 0 then None
      else
        var e := CentsEnd(text, ThousandsEnd(text, start + lead));
        Some(Match(e, start, e))
    else None
  }

  /** Without thousands separators the integer part is cut after three
      digits: in "$1234.56" the group is "123", since nothing after the
      group forces the engine to reconsider. */
  lemma AmountWithoutSeparatorIsCut()
    ensures AmountAt("$1234.56", 0) == Some(Match(4, 1, 4))
  {
    var text := "$1234.56";
    assert WhitespaceRun(text, 1) == 1;
    assert DigitsAt(text, 1, 3);
    assert ThousandsEnd(text, 4) == 4;
    assert CentsEnd(text, 4) == 4;
  }

  /** `\b(\d{5})\b` at i. */
  function CptAt(text: string, i: nat): (m: Option<Match>)
    ensures m.Some? <==> Boundary(text, i) && DigitsAt(text, i, 5) && Boundary(text, i + 5)
    ensures m.Some? ==> m.value == Match(i + 5, i, i + 5)
  {
    if Boundary(text, i) && DigitsAt(text, i, 5) && Boundary(text, i + 5) then Some(Match(i + 5, i, i + 5)) else None
  }

  /** An ICD-10 code: an upper-case letter, two digits, and optionally a
      dot with one or two digits. */
  predicate IcdForm(s: string) {
    && (|s| == 3 || |s| == 5 || |s| == 6)
    && IsUpperAscii(s[0]) && IsDigit(s[1]) && IsDigit(s[2])
    && (|s| > 3 ==> s[3] == '.' && AllDigits(s[4..]))
  }

  /** `\b([A-Z]\d{2}(?:\.\d{1,2})?)\b` at i: the optional part is tried
      with two digits, then one, then left out, each followed by `\b`. */
  function IcdAt(text: string, i: nat): (m: Option<Match>)
    ensures m.Some? ==>
      && m.value.groupStart == i && i + 3 <= m.value.groupEnd == m.value.end <= |text|
      && Boundary(text, i) && Boundary(text, m.value.end)
      && IcdForm(text[i..m.value.end])
  {
    if Boundary(text, i) && i + 3 <= |text| && IsUpperAscii(text[i]) && DigitsAt(text, i + 1, 2) then
      var k := i + 3;
      var e :=
        if k < |text| && text[k] == '.' && DigitsAt(text, k + 1, 2) && Boundary(text, k + 3) then k + 3
        else if k < |text| && text[k] == '.' && DigitsAt(text, k + 1, 1) && Boundary(text, k + 2) then k + 2
        else if Boundary(text, k) then k
        else i;
      if e == i then None
      else
        var code := text[i..e];
        assert forall j :: 0 <= j < |code| ==> code[j] == text[i + j];
        assert |code| > 3 ==> AllDigits(code[4..]) by {
          if |code| > 3 {
            var tail := code[4..];
            assert forall j :: 0 <= j < |tail| ==> tail[j] == text[k + 1 + j];
          }
        }
        Some(Match(e, i, e))
    else None
  }

  /** The alternatives of `(?:Account|Acct|Account #|Acct #)`, in order. */
  const AccountLabels: seq<string> := ["account", "acct", "account #", "acct #"]

  /** The label occurs at i, ignoring the case of ASCII letters (the `i`
      flag; outside ASCII no character folds onto these letters). */
  predicate LabelAt(text: string, i: nat, word: string) {
    i + |word| <= |text| && forall k :: 0 <= k < |word| ==> LowerChar(text[i + k]) == word[k]
  }

  /** `[\s:]+(\d+)` at k. Both runs are taken whole: giving back a
      separator leaves a separator, not a digit, in front of `\d+`. */
  function AccountNumberAfter(text: string, k: nat): (m: Option<Match>)
    requires k <= |text|
    ensures m.Some? ==> k < m.value.groupStart < m.value.groupEnd == m.value.end <= |text|
                        && DigitsAt(text, m.value.groupStart, m.value.groupEnd - m.value.groupStart)
  {
    var digits := LabelSeparatorRun(text, k);
    if digits == k then None
    else
      var e := DigitRun(text, digits);
      if e == digits then None else Some(Match(e, digits, e))
  }

  /** The label alternatives from position a of AccountLabels on. */
  function AccountFrom(text: string, i: nat, a: nat): (m: Option<Match>)
    requires a <= |AccountLabels|
    ensures m.Some? ==> i < m.value.groupStart < m.value.groupEnd == m.value.end <= |text|
                        && DigitsAt(text, m.value.groupStart, m.value.groupEnd - m.value.groupStart)
    decreases |AccountLabels| - a
  {
    if a == |AccountLabels| then None
    else if LabelAt(text, i, AccountLabels[a]) && AccountNumberAfter(text, i + |AccountLabels[a]|).Some? then
      AccountNumberAfter(text, i + |AccountLabels[a]|)
    else AccountFrom(text, i, a + 1)
  }

  /** `(?:Account|Acct|Account #|Acct #)[\s:]+(\d+)` with flags `gi`, at i. */
  function AccountAt(text: string, i: nat): (m: Option<Match>)
    ensures m.Some? ==> i < m.value.groupStart < m.value.groupEnd == m.value.end <= |text|
                        && DigitsAt(text, m.value.groupStart, m.value.groupEnd - m.value.groupStart)
  {
    AccountFrom(text, i, 0)
  }

  /** The match the regular expression of p reports at position i. */
  function MatchAt(p: Pattern, text: string, i: nat): (m: Option<Match>)
    ensures m.Some? ==> i < m.value.end <= |text| && i <= m.value.groupStart <= m.value.groupEnd <= m.value.end
  {
    match p
    case DatePattern =>
      var d := DateAt(text, i);
      if d.Some? then Some(Match(i + DateLength(d.value), i, i + DateLength(d.value))) else None
    case AmountPattern => AmountAt(text, i)
    case CptPattern => CptAt(text, i)
    case IcdPattern =>
      IcdAt(text, i)
    case AccountPattern => AccountAt(text, i)
  }

  // ---------------------------------------------------------------------
  // The `while ((match = re.exec(text)) !== null)` loops
  // ---------------------------------------------------------------------

  /** A compiled regular expression applied to one text: the match it
      reports at each start position. */
  type Matcher = nat -> Option<Match>

  /** Every match lies inside the text, starts where asked and is not empty,
      and its group lies inside it. */
  ghost predicate ValidMatcher(text: string, at: Matcher) {
    forall i: nat :: at(i).Some? ==>
      i < at(i).value.end <= |text| && i <= at(i).value.groupStart <= at(i).value.groupEnd <= at(i).value.end
  }

  /** The matcher of pattern p on the text. */
  function RegexOf(p: Pattern, text: string): (at: Matcher)
    ensures ValidMatcher(text, at)
    ensures forall i: nat :: at(i) == MatchAt(p, text, i)
  {
    (i: nat) => MatchAt(p, text, i)
  }

  /** No match starts anywhere in [a, b). */
  ghost predicate NoMatchIn(at: Matcher, a: nat, b: nat) {
    forall i: nat :: a <= i < b ==> at(i).None?
  }

  /** Where `exec` finds the next match when searching from `from`. */
  function FirstMatch(at: Matcher, text: string, from: nat): (r: Option<nat>)
    requires from <= |text|
    ensures r.Some? ==> from <= r.value < |text| && at(r.value).Some? && NoMatchIn(at, from, r.value)
    ensures r.None? ==> NoMatchIn(at, from, |text|)
    decreases |text| - from
  {
    if from == |text| then None
    else if at(from).Some? then Some(from)
    else FirstMatch(at, text, from + 1)
  }

  /** A match reported by the loop, with its start position. */
  datatype Hit = Hit(start: nat, m: Match)

  /** All matches the loop reports, searching from `from`: each is the
      match at its start, and they follow one another without overlapping.
      The loop resumes at the end of each match. */
  function Scan(at: Matcher, text: string, from: nat): (hits: seq<Hit>)
    requires ValidMatcher(text, at) && from <= |text|
    ensures forall k :: 0 <= k < |hits| ==> from <= hits[k].start && at(hits[k].start) == Some(hits[k].m)
    ensures forall k :: 0 <= k < |hits| - 1 ==> hits[k].m.end <= hits[k + 1].start
    decreases |text| - from
  {
    match FirstMatch(at, text, from)
    case None => []
    case Some(i) =>
      var m := at(i).value;
      var rest := Scan(at, text, m.end);
      assert forall k :: 1 <= k < |rest| + 1 ==> ([Hit(i, m)] + rest)[k] == rest[k - 1];
      [Hit(i, m)] + rest
  }

  /** The scan misses nothing: no match starts before the first reported
      one, between two reported ones, or after the last. */
  lemma {:induction false} ScanMissesNothing(at: Matcher, text: string, from: nat)
    requires ValidMatcher(text, at) && from <= |text|
    ensures var hits := Scan(at, text, from);
      && (|hits| == 0 ==> NoMatchIn(at, from, |text|))
      && (|hits| > 0 ==> NoMatchIn(at, from, hits[0].start))
      && (|hits| > 0 ==> NoMatchIn(at, hits[|hits| - 1].m.end, |text|))
      && (forall k :: 0 <= k < |hits| - 1 ==> NoMatchIn(at, hits[k].m.end, hits[k + 1].start))
    decreases |text| - from
  {
    var first := FirstMatch(at, text, from);
    if first.Some? {
      var i := first.value;
      var m := at(i).value;
      var rest := Scan(at, text, m.end);
      ScanMissesNothing(at, text, m.end);
      var hits := Scan(at, text, from);
      assert hits == [Hit(i, m)] + rest;
      forall k | 0 <= k < |hits| - 1
        ensures NoMatchIn(at, hits[k].m.end, hits[k + 1].start)
      {
        if k > 0 {
          assert hits[k] == rest[k - 1] && hits[k + 1] == rest[k];
        }
      }
    }
  }

  /** The matches of pattern p the loop reports over the whole text. */
  function Hits(p: Pattern, text: string): (hits: seq<Hit>)
    ensures forall k :: 0 <= k < |hits| ==> MatchAt(p, text, hits[k].start) == Some(hits[k].m)
    ensures forall k :: 0 <= k < |hits| - 1 ==> hits[k].m.end <= hits[k + 1].start
  {
    Scan(RegexOf(p, text), text, 0)
  }

  /** The capture groups of the matches the loop reports, in order. */
  function Groups(p: Pattern, text: string): (groups: seq<string>)
    ensures var hits := Hits(p, text);
      && |groups| == |hits|
      && forall k :: 0 <= k < |hits| ==>
           hits[k].m.groupStart <= hits[k].m.groupEnd <= |text|
           && groups[k] == text[hits[k].m.groupStart..hits[k].m.groupEnd]
  {
    var hits := Hits(p, text);
    seq(|hits|, k requires 0 <= k < |hits| => text[hits[k].m.groupStart..hits[k].m.groupEnd])
  }

  /** Successive groups occur in the text one after another, without
      overlapping. */
  lemma GroupsInTextOrder(p: Pattern, text: string)
    ensures var hits := Hits(p, text);
      forall k :: 0 <= k < |hits| - 1 ==> hits[k].m.groupEnd <= hits[k + 1].m.groupStart
  {
  }

  // ---------------------------------------------------------------------
  // extractBillPatterns
  // ---------------------------------------------------------------------

  /** `s.replace(/,/g, '')` */
  function RemoveCommas(s: string): (r: string)
    ensures forall k :: 0 <= k < |r| ==> r[k] != ','
    decreases |s|
  {
    if |s| == 0 then [] else (if s[0] == ',' then [] else [s[0]]) + RemoveCommas(s[1..])
  }

  /** Only the commas go: every other character stays, as often as before. */
  lemma {:induction false} RemoveCommasKeepsOthers(s: string)
    ensures multiset(RemoveCommas(s)) == multiset(s)[',' := 0]
    decreases |s|
  {
    if |s| > 0 {
      RemoveCommasKeepsOthers(s[1..]);
      assert s == [s[0]] + s[1..];
    }
  }

  /** A dollar amount as pushed: digits, optionally followed by a dot and
      two digits. */
  predicate AmountForm(v: string) {
    || (|v| > 0 && AllDigits(v))
    || (|v| >= 4 && AllDigits(v[..|v| - 3]) && v[|v| - 3] == '.' && AllDigits(v[|v| - 2..]))
  }

  predicate AccountNumberForm(v: string) {
    |v| > 0 && AllDigits(v)
  }

  predicate CptForm(v: string) {
    |v| == 5 && AllDigits(v)
  }

  datatype Code = Code(code: string, codeType: string)

  /** The object `extractBillPatterns` returns. */
  datatype BillPatterns = BillPatterns(
    dates: seq<string>,
    amounts: seq<string>,
    codes: seq<Code>,
    accountNumbers: seq<string>)

  /** The dates: whole matches of the date expression, in text order. */
  function Dates(text: string): (dates: seq<string>)
    ensures var hits := Hits(DatePattern, text);
      && |dates| == |hits|
      && forall k :: 0 <= k < |hits| ==>
           hits[k].m.groupStart <= hits[k].m.groupEnd <= |text|
           && dates[k] == text[hits[k].m.groupStart..hits[k].m.groupEnd]
    ensures forall k :: 0 <= k < |dates| ==> DateForm(dates[k])
  {
    DatesHaveDateForm(text);
    Groups(DatePattern, text)
  }

  /** The amounts: the captured number with its commas removed. */
  function Amounts(text: string): (amounts: seq<string>)
    ensures |amounts| == |Groups(AmountPattern, text)|
    ensures forall k :: 0 <= k < |amounts| ==> AmountForm(amounts[k]) && amounts[k] == RemoveCommas(Groups(AmountPattern, text)[k])
  {
    var groups := Groups(AmountPattern, text);
    AmountsHaveAmountForm(text);
    seq(|groups|, k requires 0 <= k < |groups| => RemoveCommas(groups[k]))
  }

  /** The codes: every CPT match, then every ICD-10 match. */
  function Codes(text: string): (codes: seq<Code>)
    ensures forall k :: 0 <= k < |codes| ==>
      || (codes[k].codeType == "CPT" && CptForm(codes[k].code))
      || (codes[k].codeType == "ICD-10" && IcdForm(codes[k].code))
    ensures forall k, l :: 0 <= k < l < |codes| && codes[k].codeType == "ICD-10" ==> codes[l].codeType == "ICD-10"
  {
    var cpt, icd := CptCodes(text), IcdCodes(text);
    CptThenIcd(cpt, icd);
    cpt + icd
  }

  /** The CPT matches, tagged "CPT". */
  function CptCodes(text: string): (codes: seq<Code>)
    ensures |codes| == |Groups(CptPattern, text)|
    ensures forall k :: 0 <= k < |codes| ==>
      codes[k] == Code(Groups(CptPattern, text)[k], "CPT") && CptForm(codes[k].code)
  {
    CptCodesHaveCptForm(text);
    Tagged(Groups(CptPattern, text), "CPT")
  }

  /** The ICD-10 matches, tagged "ICD-10". */
  function IcdCodes(text: string): (codes: seq<Code>)
    ensures |codes| == |Groups(IcdPattern, text)|
    ensures forall k :: 0 <= k < |codes| ==>
      codes[k] == Code(Groups(IcdPattern, text)[k], "ICD-10") && IcdForm(codes[k].code)
  {
    IcdCodesHaveIcdForm(text);
    Tagged(Groups(IcdPattern, text), "ICD-10")
  }

  /** Each value paired with the same code type. */
  function Tagged(values: seq<string>, codeType: string): (codes: seq<Code>)
    ensures |codes| == |values|
    ensures forall k :: 0 <= k < |values| ==> codes[k] == Code(values[k], codeType)
  {
    seq(|values|, k requires 0 <= k < |values| => Code(values[k], codeType))
  }

  /** CPT codes followed by ICD-10 codes: each entry is where it was put,
      has its type's form, and no CPT code follows an ICD-10 code. */
  lemma CptThenIcd(cpt: seq<Code>, icd: seq<Code>)
    requires forall k :: 0 <= k < |cpt| ==> cpt[k].codeType == "CPT" && CptForm(cpt[k].code)
    requires forall k :: 0 <= k < |icd| ==> icd[k].codeType == "ICD-10" && IcdForm(icd[k].code)
    ensures var codes := cpt + icd;
      && (forall k :: 0 <= k < |cpt| ==> codes[k] == cpt[k])
      && (forall k :: 0 <= k < |icd| ==> codes[|cpt| + k] == icd[k])
      && (forall k :: 0 <= k < |codes| ==>
            || (codes[k].codeType == "CPT" && CptForm(codes[k].code))
            || (codes[k].codeType == "ICD-10" && IcdForm(codes[k].code)))
      && (forall k, l :: 0 <= k < l < |codes| && codes[k].codeType == "ICD-10" ==> codes[l].codeType == "ICD-10")
  {
  }

  /** The account numbers: the digits after an account label, in text
      order. */
  function AccountNumbers(text: string): (numbers: seq<string>)
    ensures var hits := Hits(AccountPattern, text);
      && |numbers| == |hits|
      && forall k :: 0 <= k < |hits| ==>
           hits[k].m.groupStart <= hits[k].m.groupEnd <= |text|
           && numbers[k] == text[hits[k].m.groupStart..hits[k].m.groupEnd]
    ensures forall k :: 0 <= k < |numbers| ==> AccountNumberForm(numbers[k])
  {
    AccountNumbersHaveForm(text);
    Groups(AccountPattern, text)
  }

  function ExtractBillPatterns(text: string): (r: BillPatterns)
    ensures forall k :: 0 <= k < |r.dates| ==> DateForm(r.dates[k])
    ensures forall k :: 0 <= k < |r.amounts| ==> AmountForm(r.amounts[k])
    ensures forall k :: 0 <= k < |r.codes| ==>
      || (r.codes[k].codeType == "CPT" && CptForm(r.codes[k].code))
      || (r.codes[k].codeType == "ICD-10" && IcdForm(r.codes[k].code))
    ensures forall k, l :: 0 <= k < l < |r.codes| && r.codes[k].codeType == "ICD-10" ==> r.codes[l].codeType == "ICD-10"
    ensures forall k :: 0 <= k < |r.accountNumbers| ==> AccountNumberForm(r.accountNumbers[k])
  {
    BillPatterns(Dates(text), Amounts(text), Codes(text), AccountNumbers(text))
  }

  /** The codes are the CPT groups tagged "CPT", then the ICD-10 groups
      tagged "ICD-10", each list in text order. */
  lemma CodesAreMatches(text: string)
    ensures var codes, cpt, icd := Codes(text), Groups(CptPattern, text), Groups(IcdPattern, text);
      && |codes| == |cpt| + |icd|
      && (forall k :: 0 <= k < |cpt| ==> codes[k] == Code(cpt[k], "CPT"))
      && (forall k :: 0 <= k < |icd| ==> codes[|cpt| + k] == Code(icd[k], "ICD-10"))
  {
    CptThenIcd(CptCodes(text), IcdCodes(text));
  }

  /** Every field of the result is made of the groups the `exec` loops
      report for its expression, in text order. */
  lemma ExtractedTokensAreMatches(text: string)
    ensures var r := ExtractBillPatterns(text);
      && r.dates == Groups(DatePattern, text)
      && |r.amounts| == |Groups(AmountPattern, text)|
      && (forall k :: 0 <= k < |r.amounts| ==> r.amounts[k] == RemoveCommas(Groups(AmountPattern, text)[k]))
      && |r.codes| == |Groups(CptPattern, text)| + |Groups(IcdPattern, text)|
      && (forall k :: 0 <= k < |Groups(CptPattern, text)| ==> r.codes[k] == Code(Groups(CptPattern, text)[k], "CPT"))
      && (forall k :: 0 <= k < |Groups(IcdPattern, text)| ==>
            r.codes[|Groups(CptPattern, text)| + k] == Code(Groups(IcdPattern, text)[k], "ICD-10"))
      && r.accountNumbers == Groups(AccountPattern, text)
  {
    CodesAreMatches(text);
  }

  /** The loop reports nothing exactly when the expression matches nowhere
      in the text. */
  lemma NoGroupsIffNoMatch(p: Pattern, text: string)
    ensures |Groups(p, text)| == 0 <==> forall i :: 0 <= i < |text| ==> MatchAt(p, text, i).None?
  {
    var at := RegexOf(p, text);
    ScanMissesNothing(at, text, 0);
    var hits := Hits(p, text);
    if |hits| > 0 {
      assert at(hits[0].start).Some?;
      assert MatchAt(p, text, hits[0].start).Some?;
    }
  }

  /** A field of the result is empty exactly when its expressions match
      nowhere in the text. */
  lemma EmptyFieldsIffNoMatch(text: string)
    ensures var r := ExtractBillPatterns(text);
      && (|r.dates| == 0 <==> forall i :: 0 <= i < |text| ==> MatchAt(DatePattern, text, i).None?)
      && (|r.amounts| == 0 <==> forall i :: 0 <= i < |text| ==> MatchAt(AmountPattern, text, i).None?)
      && (|r.codes| == 0 <==>
            forall i :: 0 <= i < |text| ==> MatchAt(CptPattern, text, i).None? && MatchAt(IcdPattern, text, i).None?)
      && (|r.accountNumbers| == 0 <==> forall i :: 0 <= i < |text| ==> MatchAt(AccountPattern, text, i).None?)
  {
    ExtractedTokensAreMatches(text);
    NoGroupsIffNoMatch(DatePattern, text);
    NoGroupsIffNoMatch(AmountPattern, text);
    NoGroupsIffNoMatch(CptPattern, text);
    NoGroupsIffNoMatch(IcdPattern, text);
    NoGroupsIffNoMatch(AccountPattern, text);
  }

  /** The text a date match covers has the date form. */
  lemma DateMatchHasDateForm(text: string, i: nat, m: Match)
    requires MatchAt(DatePattern, text, i) == Some(m)
    ensures m.groupStart <= m.groupEnd <= |text| && DateForm(text[m.groupStart..m.groupEnd])
  {
    var d := DateAt(text, i).value;
    assert m == Match(i + DateLength(d), i, i + DateLength(d));
    DateSplitOfText(text, i, d);
  }

  lemma DatesHaveDateForm(text: string)
    ensures forall k :: 0 <= k < |Groups(DatePattern, text)| ==> DateForm(Groups(DatePattern, text)[k])
  {
    var hits := Hits(DatePattern, text);
    forall k | 0 <= k < |hits|
      ensures DateForm(Groups(DatePattern, text)[k])
    {
      DateMatchHasDateForm(text, hits[k].start, hits[k].m);
    }
  }

  lemma CptCodesHaveCptForm(text: string)
    ensures forall k :: 0 <= k < |Groups(CptPattern, text)| ==> CptForm(Groups(CptPattern, text)[k])
  {
    var hits := Hits(CptPattern, text);
    forall k | 0 <= k < |hits|
      ensures CptForm(Groups(CptPattern, text)[k])
    {
      DigitsAtSlice(text, hits[k].start, 5);
    }
  }

  lemma IcdCodesHaveIcdForm(text: string)
    ensures forall k :: 0 <= k < |Groups(IcdPattern, text)| ==> IcdForm(Groups(IcdPattern, text)[k])
  {
  }

  lemma AccountNumbersHaveForm(text: string)
    ensures forall k :: 0 <= k < |Groups(AccountPattern, text)| ==> AccountNumberForm(Groups(AccountPattern, text)[k])
  {
    var hits := Hits(AccountPattern, text);
    forall k | 0 <= k < |hits|
      ensures AccountNumberForm(Groups(AccountPattern, text)[k])
    {
      var m := hits[k].m;
      DigitsAtSlice(text, m.groupStart, m.groupEnd - m.groupStart);
    }
  }

  lemma AmountsHaveAmountForm(text: string)
    ensures forall k :: 0 <= k < |Groups(AmountPattern, text)| ==> AmountForm(RemoveCommas(Groups(AmountPattern, text)[k]))
  {
    var hits := Hits(AmountPattern, text);
    forall k | 0 <= k < |hits|
      ensures AmountForm(RemoveCommas(Groups(AmountPattern, text)[k]))
    {
      AmountValueForm(text, hits[k].start);
    }
  }

  lemma {:induction false} RemoveCommasConcat(a: string, b: string)
    ensures RemoveCommas(a + b) == RemoveCommas(a) + RemoveCommas(b)
    decreases |a|
  {
    if |a| == 0 {
      assert a + b == b;
    } else {
      assert (a + b)[1..] == a[1..] + b;
      RemoveCommasConcat(a[1..], b);
    }
  }

  lemma {:induction false} RemoveCommasKeepsCommaFree(s: string)
    requires forall k :: 0 <= k < |s| ==> s[k] != ','
    ensures RemoveCommas(s) == s
    decreases |s|
  {
    if |s| > 0 {
      RemoveCommasKeepsCommaFree(s[1..]);
    }
  }

  /** The repeated `,ddd` groups are digits once the commas are gone. */
  lemma {:induction false} ThousandsAreDigits(text: string, k: nat)
    requires k <= |text|
    ensures AllDigits(RemoveCommas(text[k..ThousandsEnd(text, k)]))
    decreases |text| - k
  {
    var e := ThousandsEnd(text, k);
    if e != k {
      ThousandsAreDigits(text, k + 4);
      assert text[k..e] == text[k..k + 4] + text[k + 4..e];
      RemoveCommasConcat(text[k..k + 4], text[k + 4..e]);
      assert RemoveCommas(text[k..k + 4]) == text[k + 1..k + 4] by {
        var t := text[k + 1..k + 4];
        assert forall j :: 0 <= j < 3 ==> t[j] == text[k + 1 + j];
        RemoveCommasKeepsCommaFree(t);
        assert text[k..k + 4] == [','] + t;
      }
      DigitsAtSlice(text, k + 1, 3);
    }
  }

  /** The integer part of an amount, `\d{1,3}(?:,\d{3})*`, is digits once
      its commas are removed. */
  lemma AmountIntegerDigits(text: string, start: nat)
    requires start <= |text| && LeadingDigits(text, start) > 0
    ensures var t := ThousandsEnd(text, start + LeadingDigits(text, start));
      var digits := RemoveCommas(text[start..t]);
      |digits| > 0 && AllDigits(digits)
  {
    var lead := LeadingDigits(text, start);
    var t := ThousandsEnd(text, start + lead);
    var a, b := text[start..start + lead], text[start + lead..t];
    assert text[start..t] == a + b;
    RemoveCommasConcat(a, b);
    DigitsAtSlice(text, start, lead);
    RemoveCommasKeepsCommaFree(a);
    ThousandsAreDigits(text, start + lead);
  }

  /** Digits followed by a dot and two digits have the amount form. */
  lemma DigitsWithCents(digits: string, cents: string)
    requires |digits| > 0 && AllDigits(digits)
    requires |cents| == 3 && cents[0] == '.' && IsDigit(cents[1]) && IsDigit(cents[2])
    ensures AmountForm(digits + cents)
  {
    var v := digits + cents;
    assert v[..|v| - 3] == digits;
    assert v[|v| - 3] == '.';
    assert v[|v| - 2..] == cents[1..];
  }

  /** The cents part `.dd` has no comma to remove. */
  lemma CentsPart(text: string, t: nat)
    requires t + 3 <= |text| && text[t] == '.' && DigitsAt(text, t + 1, 2)
    ensures var c := text[t..t + 3];
      RemoveCommas(c) == c && c[0] == '.' && IsDigit(c[1]) && IsDigit(c[2])
  {
    var c := text[t..t + 3];
    assert c[0] == text[t] && c[1] == text[t + 1] && c[2] == text[t + 2];
    RemoveCommasKeepsCommaFree(c);
  }

  /** The amount pushed for a match is digits with an optional cents part. */
  lemma AmountValueForm(text: string, i: nat)
    requires AmountAt(text, i).Some?
    ensures var m := AmountAt(text, i).value;
      AmountForm(RemoveCommas(text[m.groupStart..m.groupEnd]))
  {
    var start := WhitespaceRun(text, i + 1);
    AmountGroupForm(text, start);
  }

  /** The group that starts at a digit run, without its commas, is digits
      with an optional cents part. */
  lemma AmountGroupForm(text: string, start: nat)
    requires start <= |text| && LeadingDigits(text, start) > 0
    ensures var e := CentsEnd(text, ThousandsEnd(text, start + LeadingDigits(text, start)));
      AmountForm(RemoveCommas(text[start..e]))
  {
    var t := ThousandsEnd(text, start + LeadingDigits(text, start));
    var e := CentsEnd(text, t);
    AmountIntegerDigits(text, start);
    if e != t {
      var c := text[t..e];
      CentsPart(text, t);
      assert text[start..e] == text[start..t] + c;
      RemoveCommasConcat(text[start..t], c);
      DigitsWithCents(RemoveCommas(text[start..t]), c);
    }
  }
}
