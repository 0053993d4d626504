/**
 * The one-day chart page of the old site (`visa2/view/index.php`): which day it shows,
 * how the per-city log lines become the x-axis and one series per city, and the
 * day-before and day-after links. The log files are passed in as their contents; the
 * clock is passed in as today's date.
 */
module DailyChart {

  import opened Wrappers
  import opened Seqs
  import opened Text
  import opened Calendar

  // ---------------------------------------------------------------------------
  // The day shown

  /** The white space PHP allows around a numeric string. */
  predicate IsPhpSpace(c: char) {
    c == ' ' || c == '\t' || c == '\n' || c == '\r' || c == '\U{000B}' || c == '\U{000C}'
  }

  function SkipSpace(s: string): (r: string)
    ensures |r| <= |s| && r == s[|s| - |r|..] && (r == [] || !IsPhpSpace(r[0]))
    decreases |s|
  {
    if s != [] && IsPhpSpace(s[0]) then
      var r := SkipSpace(s[1..]);
      assert s[1..][|s[1..]| - |r|..] == s[|s| - |r|..];
      r
    else
      s
  }

  function SkipSign(s: string): (r: string)
    ensures r == s || (s != [] && r == s[1..])
  {
    if s != [] && (s[0] == '+' || s[0] == '-') then s[1..] else s
  }

  predicate AllSpace(s: string) {
    forall i :: 0 <= i < |s| ==> IsPhpSpace(s[i])
  }

  /**
   * PHP's `is_numeric` on a string: optional white space, an optional sign, digits with
   * an optional decimal point (at least one digit), an optional exponent, optional
   * trailing white space. A missing parameter is not numeric.
   */
  predicate IsNumeric(p: Option<string>) {
    p.Some? &&
    var b := SkipSign(SkipSpace(p.value));
    var whole := DigitPrefix(b);
    var r1 := b[|whole|..];
    var frac := if r1 != [] && r1[0] == '.' then DigitPrefix(r1[1..]) else [];
    var r2 := if r1 != [] && r1[0] == '.' then r1[1 + |frac|..] else r1;
    && |whole| + |frac| > 0
    && if r2 != [] && (r2[0] == 'e' || r2[0] == 'E') then
         var e := SkipSign(r2[1..]);
         var exp := DigitPrefix(e);
         exp != [] && AllSpace(e[|exp|..])
       else
         AllSpace(r2)
  }

  /** A plain numeral is numeric. */
  lemma NumeralIsNumeric(s: string)
    requires IsNumeral(s)
    ensures IsNumeric(Some(s))
  {
    assert SkipSpace(s) == s;
    assert SkipSign(s) == s;
    DigitPrefixAll(s);
    assert s[|s|..] == [];
  }

  /** Lines 22-28: `y/m/d` as given when all three parameters are numeric, else today as `Y/m/d`. */
  function ShownDate(y: Option<string>, m: Option<string>, d: Option<string>, today: Date): (date: string)
    requires ValidDate(today) && today.year >= 0
    ensures IsNumeric(y) && IsNumeric(m) && IsNumeric(d) ==> date == y.value + "/" + m.value + "/" + d.value
    ensures !(IsNumeric(y) && IsNumeric(m) && IsNumeric(d)) ==> date == FormatYmd(today)
  {
    if IsNumeric(y) && IsNumeric(m) && IsNumeric(d) then y.value + "/" + m.value + "/" + d.value
    else FormatYmd(today)
  }

  /** Numerals in the query name the day they spell; anything else, or nothing, names today. */
  lemma ShownDateReads(y: Option<string>, m: Option<string>, d: Option<string>, today: Date)
    requires ValidDate(today) && today.year >= 0
    ensures y.Some? && m.Some? && d.Some? && IsNumeral(y.value) && IsNumeral(m.value) && IsNumeral(d.value) ==>
      ReadNumbers(ShownDate(y, m, d, today), '/') == Some([ParseNat(y.value), ParseNat(m.value), ParseNat(d.value)])
    ensures (y.None? || m.None? || d.None?) ==>
      ReadNumbers(ShownDate(y, m, d, today), '/') == Some([today.year, today.month, today.day])
  {
    if y.Some? && m.Some? && d.Some? && IsNumeral(y.value) && IsNumeral(m.value) && IsNumeral(d.value) {
      NumeralIsNumeric(y.value);
      NumeralIsNumeric(m.value);
      NumeralIsNumeric(d.value);
      assert ShownDate(y, m, d, today) == y.value + ['/'] + m.value + ['/'] + d.value;
      ReadThreeNumbers(y.value, m.value, d.value, '/');
    }
    if y.None? || m.None? || d.None? {
      FormatYmdReads(today);
    }
  }

  // ---------------------------------------------------------------------------
  // Lines 33-43: the raw values and the x-axis

  /** The cities, in the order of their series. */
  const LOC: seq<string> := ["北京", "成都", "广州", "上海", "沈阳"]

  function Lines(content: string): seq<string> { Split(content, '\n') }

  /** The timestamp of a log line: its text up to the first space. */
  function Token(line: string): string { Split(line, ' ')[0] }

  /** The value of a log line: the text between the first and second space, `None` (PHP null) without a space. */
  function Value(line: string): Option<string> {
    var parts := Split(line, ' ');
    if |parts| > 1 then Some(parts[1]) else None
  }

  /** One city's values by timestamp, after reading `lines` in order. */
  function RawOf(lines: seq<string>): map<string, Option<string>>
    decreases |lines|
  {
    if lines == [] then map[]
    else
      var prev := RawOf(lines[..|lines| - 1]);
      var line := lines[|lines| - 1];
      if Token(line) != "" then prev[Token(line) := Value(line)] else prev
  }

  /** The timestamps of `lines`, each once, in order of first appearance. */
  function AxisOf(lines: seq<string>): seq<string>
    decreases |lines|
  {
    if lines == [] then []
    else
      var prev := AxisOf(lines[..|lines| - 1]);
      var t := Token(lines[|lines| - 1]);
      if t != "" && t !in prev then prev + [t] else prev
  }

  /** All lines of all files, city after city. */
  function AllLines(contents: seq<string>): seq<string>
    decreases |contents|
  {
    if contents == [] then [] else AllLines(contents[..|contents| - 1]) + Lines(contents[|contents| - 1])
  }

  /** A timestamp has a value exactly when some line carries it. */
  lemma {:induction false} RawOfKeys(lines: seq<string>, t: string)
    ensures t in RawOf(lines) <==> t != "" && exists i :: 0 <= i < |lines| && Token(lines[i]) == t
    decreases |lines|
  {
    if lines != [] {
      var n := |lines| - 1;
      var init := lines[..n];
      RawOfKeys(init, t);
      assert forall i :: 0 <= i < n ==> init[i] == lines[i];
      if Token(lines[n]) != t && t != "" && exists i :: 0 <= i < |lines| && Token(lines[i]) == t {
        var i :| 0 <= i < |lines| && Token(lines[i]) == t;
        assert Token(init[i]) == t;
      }
    }
  }

  /** The last line carrying a timestamp gives its value. */
  lemma {:induction false} RawOfLast(lines: seq<string>, i: nat)
    requires i < |lines| && Token(lines[i]) != ""
    requires forall j :: i < j < |lines| ==> Token(lines[j]) != Token(lines[i])
    ensures Token(lines[i]) in RawOf(lines) && RawOf(lines)[Token(lines[i])] == Value(lines[i])
    decreases |lines|
  {
    var n := |lines| - 1;
    if i < n {
      var init := lines[..n];
      assert init[i] == lines[i];
      assert forall j :: i < j < n ==> init[j] == lines[j];
      RawOfLast(init, i);
    }
  }

  /** The axis holds each timestamp of the lines once, and nothing else. */
  lemma {:induction false} AxisOfMembers(lines: seq<string>)
    ensures NoDup(AxisOf(lines))
    ensures forall t :: t in AxisOf(lines) <==> t != "" && exists i :: 0 <= i < |lines| && Token(lines[i]) == t
    decreases |lines|
  {
    if lines != [] {
      var n := |lines| - 1;
      var init := lines[..n];
      AxisOfMembers(init);
      assert forall i :: 0 <= i < n ==> init[i] == lines[i];
      var prev := AxisOf(init);
      var t := Token(lines[n]);
      if t != "" && t !in prev {
        NoDupSnoc(prev, t);
      }
      forall u | u != "" && exists i :: 0 <= i < |lines| && Token(lines[i]) == u ensures u in AxisOf(lines) {
        var i :| 0 <= i < |lines| && Token(lines[i]) == u;
        if i < n {
          assert Token(init[i]) == u;
        }
      }
    }
  }

  lemma AllLinesSnoc(contents: seq<string>, c: nat)
    requires c < |contents|
    ensures AllLines(contents[..c + 1]) == AllLines(contents[..c]) + Lines(contents[c])
  {
    assert contents[..c + 1][..c] == contents[..c];
  }

  lemma AxisOfSnoc(lines: seq<string>, line: string)
    ensures AxisOf(lines + [line]) == if Token(line) != "" && Token(line) !in AxisOf(lines) then AxisOf(lines) + [Token(line)] else AxisOf(lines)
  {
    assert (lines + [line])[..|lines|] == lines;
  }

  lemma RawOfSnoc(lines: seq<string>, line: string)
    ensures RawOf(lines + [line]) == if Token(line) != "" then RawOf(lines)[Token(line) := Value(line)] else RawOf(lines)
  {
    assert (lines + [line])[..|lines|] == lines;
  }

  /** Lines 34-43 for one city: its values, and the axis `seen` extended by its new timestamps. */
  method ReadCity(tmp: seq<string>, seen: seq<string>, ghost before: seq<string>) returns (cityRaw: map<string, Option<string>>, x: seq<string>)
    requires seen == AxisOf(before)
    ensures cityRaw == RawOf(tmp)
    ensures x == AxisOf(before + tmp)
  {
    cityRaw := map[];
    x := seen;
    assert before + tmp[..0] == before;
    for k := 0 to |tmp|
      invariant cityRaw == RawOf(tmp[..k])
      invariant x == AxisOf(before + tmp[..k])
    {
      var tm := Token(tmp[k]);
      assert tmp[..k + 1] == tmp[..k] + [tmp[k]];
      assert before + tmp[..k + 1] == (before + tmp[..k]) + [tmp[k]];
      AxisOfSnoc(before + tmp[..k], tmp[k]);
      RawOfSnoc(tmp[..k], tmp[k]);
      if tm != "" {
        cityRaw := cityRaw[tm := Value(tmp[k])];
        if tm !in x {
          x := x + [tm];
        }
      }
    }
    assert tmp[..|tmp|] == tmp;
  }

  /** Every city's values, city after city. */
  function CityRaws(contents: seq<string>): (raws: seq<map<string, Option<string>>>)
    ensures |raws| == |contents|
    decreases |contents|
  {
    if contents == [] then [] else CityRaws(contents[..|contents| - 1]) + [RawOf(Lines(contents[|contents| - 1]))]
  }

  lemma {:induction false} CityRawsAt(contents: seq<string>, c: nat)
    requires c < |contents|
    ensures CityRaws(contents)[c] == RawOf(Lines(contents[c]))
    decreases |contents|
  {
    var n := |contents| - 1;
    if c < n {
      CityRawsAt(contents[..n], c);
    }
  }

  lemma CityRawsSnoc(contents: seq<string>, c: nat)
    requires c < |contents|
    ensures CityRaws(contents[..c + 1]) == CityRaws(contents[..c]) + [RawOf(Lines(contents[c]))]
  {
    assert contents[..c + 1][..c] == contents[..c];
  }

  /**
   * Lines 33-43: read every city's lines; a line with an empty timestamp is skipped,
   * a later line overwrites an earlier one with the same timestamp, and each new
   * timestamp is appended to the axis.
   */
  method ReadLogs(contents: seq<string>) returns (raw: seq<map<string, Option<string>>>, x: seq<string>)
    ensures |raw| == |contents|
    ensures forall c :: 0 <= c < |contents| ==> raw[c] == RawOf(Lines(contents[c]))
    ensures x == AxisOf(AllLines(contents))
  {
    raw := [];
    x := [];
    for c := 0 to |contents|
      invariant raw == CityRaws(contents[..c])
      invariant x == AxisOf(AllLines(contents[..c]))
    {
      var cityRaw;
      cityRaw, x := ReadCity(Lines(contents[c]), x, AllLines(contents[..c]));
      AllLinesSnoc(contents, c);
      CityRawsSnoc(contents, c);
      raw := raw + [cityRaw];
    }
    assert contents[..|contents|] == contents;
    forall c | 0 <= c < |contents| ensures raw[c] == RawOf(Lines(contents[c])) {
      CityRawsAt(contents, c);
    }
  }

  // ---------------------------------------------------------------------------
  // Line 44: sort($x)

  /** Byte-wise string order, which PHP uses to compare non-numeric strings. */
  predicate StrLt(a: string, b: string)
    decreases |a|
  {
    if a == [] then b != []
    else if b == [] then false
    else if a[0] != b[0] then a[0] < b[0]
    else StrLt(a[1..], b[1..])
  }

  predicate StrLe(a: string, b: string) { a == b || StrLt(a, b) }

  lemma {:induction false} StrLtIrreflexive(a: string)
    ensures !StrLt(a, a)
    decreases |a|
  {
    if a != [] {
      StrLtIrreflexive(a[1..]);
    }
  }

  lemma {:induction false} StrLtTotal(a: string, b: string)
    ensures a == b || StrLt(a, b) || StrLt(b, a)
    decreases |a|
  {
    if a != [] && b != [] && a[0] == b[0] {
      StrLtTotal(a[1..], b[1..]);
      if a[1..] == b[1..] {
        assert a == [a[0]] + a[1..] && b == [b[0]] + b[1..];
      }
    }
  }

  lemma {:induction false} StrLtTransitive(a: string, b: string, c: string)
    requires StrLt(a, b) && StrLt(b, c)
    ensures StrLt(a, c)
    decreases |a|
  {
    if a != [] && a[0] == b[0] && b[0] == c[0] {
      StrLtTransitive(a[1..], b[1..], c[1..]);
    }
  }

  lemma StrLeTransitive(a: string, b: string, c: string)
    requires StrLe(a, b) && StrLe(b, c)
    ensures StrLe(a, c)
  {
    if StrLt(a, b) && StrLt(b, c) {
      StrLtTransitive(a, b, c);
    }
  }

  predicate Sorted(s: seq<string>) {
    forall i, j :: 0 <= i < j < |s| ==> StrLe(s[i], s[j])
  }

  /** `sort($x)`: an insertion sort in place. */
  method SortInPlace(a: array<string>)
    modifies a
    ensures Sorted(a[..])
    ensures multiset(a[..]) == multiset(old(a[..]))
  {
    for i := 0 to a.Length
      invariant forall p, q :: 0 <= p < q < i ==> StrLe(a[p], a[q])
      invariant multiset(a[..]) == multiset(old(a[..]))
    {
      var j := i;
      while j > 0 && StrLt(a[j], a[j - 1])
        invariant 0 <= j <= i
        invariant forall p, q :: 0 <= p < q <= i && p != j && q != j ==> StrLe(a[p], a[q])
        invariant forall q :: j < q <= i ==> StrLt(a[j], a[q])
        invariant multiset(a[..]) == multiset(old(a[..]))
      {
        a[j - 1], a[j] := a[j], a[j - 1];
        j := j - 1;
      }
      if j > 0 {
        StrLtTotal(a[j], a[j - 1]);
        forall p | 0 <= p < j ensures StrLe(a[p], a[j]) {
          StrLeTransitive(a[p], a[j - 1], a[j]);
        }
      }
    }
  }

  /** Sorting a list without repeats gives a strictly increasing list of the same timestamps. */
  lemma SortedAxis(before: seq<string>, after: seq<string>)
    requires NoDup(before) && Sorted(after) && multiset(after) == multiset(before)
    ensures NoDup(after)
    ensures forall i, j :: 0 <= i < j < |after| ==> StrLt(after[i], after[j])
    ensures forall t :: t in after <==> t in before
  {
    NoDupCounts(before);
    forall i, j | 0 <= i < j < |after| ensures after[i] != after[j] {
      if after[i] == after[j] {
        CountTwo(after, i, j);
      }
    }
    forall t ensures t in after <==> t in before {
      assert t in after <==> t in multiset(after);
      assert t in before <==> t in multiset(before);
    }
  }

  lemma {:induction false} NoDupCounts(s: seq<string>)
    requires NoDup(s)
    ensures forall t :: multiset(s)[t] <= 1
    decreases |s|
  {
    if s != [] {
      assert NoDup(s[1..]) by {
        forall a, b | 0 <= a < b < |s[1..]| ensures s[1..][a] != s[1..][b] {
          assert s[a + 1] != s[b + 1];
        }
      }
      NoDupCounts(s[1..]);
      assert s == [s[0]] + s[1..];
      assert s[0] !in s[1..] by {
        forall k | 0 <= k < |s[1..]| ensures s[1..][k] != s[0] {
          assert s[k + 1] != s[0];
        }
      }
      assert multiset(s) == multiset{s[0]} + multiset(s[1..]);
    }
  }

  lemma CountTwo(s: seq<string>, i: nat, j: nat)
    requires i < j < |s| && s[i] == s[j]
    ensures multiset(s)[s[i]] >= 2
  {
    var t := s[i];
    assert s == s[..i] + [t] + s[i + 1..j] + [t] + s[j + 1..];
    assert multiset(s) == multiset(s[..i]) + multiset{t} + multiset(s[i + 1..j]) + multiset{t} + multiset(s[j + 1..]);
  }

  // ---------------------------------------------------------------------------
  // Lines 45-55: the series

  /**
   * PHP's `$j == null` on a string or null: null is converted to "" and the two are compared
   * as strings, so it holds for null and "" only ("0" is not equal to "").
   */
  predicate IsNull(v: Option<string>) { v.None? || v == Some("") }

  /** `$raw[$name][$t]`: null when the city has no line with that timestamp. */
  function Lookup(raw: map<string, Option<string>>, t: string): Option<string> {
    if t in raw then raw[t] else None
  }

  /**
   * The series the page draws, as written: each slot its own raw value, or, when that is
   * null and the slot is not the first, the raw value of the slot before (read before that
   * slot is itself filled, since the loop runs backwards).
   */
  function OneStepFill(raw: map<string, Option<string>>, x: seq<string>): (r: seq<Option<string>>)
    ensures |r| == |x|
  {
    seq(|x|, i requires 0 <= i < |x| =>
      if IsNull(Lookup(raw, x[i])) && i > 0 then Lookup(raw, x[i - 1]) else Lookup(raw, x[i]))
  }

  /** Lines 46-54 for one city. */
  method FillSeries(raw: map<string, Option<string>>, x: seq<string>) returns (series: seq<Option<string>>)
    ensures series == OneStepFill(raw, x)
  {
    var n := |x|;
    var data := new Option<string>[n];
    for i := 0 to n
      invariant forall k :: 0 <= k < i ==> data[k] == Lookup(raw, x[k])
    {
      data[i] := Lookup(raw, x[i]);
    }
    var i := n - 1;
    while i >= 0
      invariant -1 <= i < n
      invariant forall k :: 0 <= k <= i ==> data[k] == Lookup(raw, x[k])
      invariant forall k :: i < k < n ==> data[k] == OneStepFill(raw, x)[k]
    {
      var j := Lookup(raw, x[i]);
      if IsNull(j) && i > 0 {
        j := data[i - 1];
      }
      data[i] := j;
      i := i - 1;
    }
    series := data[..];
  }

  /** A present value is kept; a gap takes the value just before it; the first slot is never filled. */
  lemma OneStepFillAt(raw: map<string, Option<string>>, x: seq<string>, i: nat)
    requires i < |x|
    ensures !IsNull(Lookup(raw, x[i])) ==> OneStepFill(raw, x)[i] == Lookup(raw, x[i])
    ensures i == 0 ==> OneStepFill(raw, x)[i] == Lookup(raw, x[0])
    ensures i > 0 && IsNull(Lookup(raw, x[i])) ==> OneStepFill(raw, x)[i] == Lookup(raw, x[i - 1])
  {
  }

  /** The slot a gap should take its value from: the last slot at or before `i` with a value, else 0. */
  function LastPresent(raw: map<string, Option<string>>, x: seq<string>, i: nat): (k: nat)
    requires i < |x|
    ensures k <= i
    ensures forall j :: k < j <= i ==> IsNull(Lookup(raw, x[j]))
    ensures k > 0 ==> !IsNull(Lookup(raw, x[k]))
    decreases i
  {
    if i == 0 || !IsNull(Lookup(raw, x[i])) then i else LastPresent(raw, x, i - 1)
  }

  /** The series with every gap carried forward from the last value before it. */
  function CarryForward(raw: map<string, Option<string>>, x: seq<string>): (r: seq<Option<string>>)
    ensures |r| == |x|
    decreases |x|
  {
    if x == [] then []
    else
      var prev := CarryForward(raw, x[..|x| - 1]);
      var v := Lookup(raw, x[|x| - 1]);
      if IsNull(v) && |x| > 1 then prev + [prev[|x| - 2]] else prev + [v]
  }

  /** Every slot of the carried-forward series holds the value of the last slot with one. */
  lemma {:induction false} CarryForwardAt(raw: map<string, Option<string>>, x: seq<string>, i: nat)
    requires i < |x|
    ensures CarryForward(raw, x)[i] == Lookup(raw, x[LastPresent(raw, x, i)])
    decreases |x|
  {
    var n := |x| - 1;
    var init := x[..n];
    assert forall k :: 0 <= k < n ==> init[k] == x[k];
    if i < n {
      CarryForwardAt(raw, init, i);
      LastPresentPrefix(raw, x, n, i);
    } else if IsNull(Lookup(raw, x[n])) && n > 0 {
      CarryForwardAt(raw, init, n - 1);
      LastPresentPrefix(raw, x, n, n - 1);
    }
  }

  lemma {:induction false} LastPresentPrefix(raw: map<string, Option<string>>, x: seq<string>, n: nat, i: nat)
    requires i < n <= |x|
    ensures LastPresent(raw, x[..n], i) == LastPresent(raw, x, i)
    decreases i
  {
    assert x[..n][i] == x[i];
    if i > 0 {
      LastPresentPrefix(raw, x, n, i - 1);
    }
  }

  /** The backward loop with the read moved forward: each gap copies the slot before it after that slot is filled. */
  method FillForward(raw: map<string, Option<string>>, x: seq<string>) returns (series: seq<Option<string>>)
    ensures series == CarryForward(raw, x)
  {
    var n := |x|;
    var data := new Option<string>[n];
    for i := 0 to n
      invariant forall k :: 0 <= k < i ==> data[k] == CarryForward(raw, x[..i])[k]
    {
      var j := Lookup(raw, x[i]);
      if IsNull(j) && i > 0 {
        j := data[i - 1];
      }
      data[i] := j;
      assert x[..i + 1][..i] == x[..i];
    }
    series := data[..];
    assert x[..n] == x;
  }

  /** Line 44 on the axis: the same timestamps, strictly increasing. */
  method SortAxis(axis: seq<string>) returns (x: seq<string>)
    requires NoDup(axis)
    ensures NoDup(x) && forall i, j :: 0 <= i < j < |x| ==> StrLt(x[i], x[j])
    ensures forall t :: t in x <==> t in axis
  {
    var a := new string[|axis|](i requires 0 <= i < |axis| => axis[i]);
    assert a[..] == axis;
    SortInPlace(a);
    x := a[..];
    SortedAxis(axis, x);
  }

  /** Lines 29-44: every city's raw map and the sorted axis of all timestamps. */
  method ChartAxis(contents: seq<string>) returns (raw: seq<map<string, Option<string>>>, x: seq<string>)
    ensures |raw| == |contents|
    ensures forall c :: 0 <= c < |contents| ==> raw[c] == RawOf(Lines(contents[c]))
    ensures NoDup(x) && forall i, j :: 0 <= i < j < |x| ==> StrLt(x[i], x[j])
    ensures forall t :: t in x <==> t != "" && exists i :: 0 <= i < |AllLines(contents)| && Token(AllLines(contents)[i]) == t
  {
    var axis;
    raw, axis := ReadLogs(contents);
    AxisOfMembers(AllLines(contents));
    x := SortAxis(axis);
  }

  /** Lines 29-55 as written: the sorted axis and, per city, the one-step fill of lines 46-54. */
  method BuildChart(contents: seq<string>) returns (x: seq<string>, data: seq<seq<Option<string>>>)
    ensures NoDup(x) && forall i, j :: 0 <= i < j < |x| ==> StrLt(x[i], x[j])
    ensures forall t :: t in x <==> t != "" && exists i :: 0 <= i < |AllLines(contents)| && Token(AllLines(contents)[i]) == t
    ensures |data| == |contents|
    ensures forall c :: 0 <= c < |contents| ==> data[c] == OneStepFill(RawOf(Lines(contents[c])), x)
  {
    var raw;
    raw, x := ChartAxis(contents);
    data := [];
    for c := 0 to |contents|
      invariant |data| == c
      invariant forall k :: 0 <= k < c ==> data[k] == OneStepFill(RawOf(Lines(contents[k])), x)
    {
      var series := FillSeries(raw[c], x);
      data := data + [series];
    }
  }

  /** Lines 29-55 with the corrected fill: the same axis, each city's gaps carried forward. */
  method BuildChartCarried(contents: seq<string>) returns (x: seq<string>, data: seq<seq<Option<string>>>)
    ensures NoDup(x) && forall i, j :: 0 <= i < j < |x| ==> StrLt(x[i], x[j])
    ensures forall t :: t in x <==> t != "" && exists i :: 0 <= i < |AllLines(contents)| && Token(AllLines(contents)[i]) == t
    ensures |data| == |contents|
    ensures forall c :: 0 <= c < |contents| ==> data[c] == CarryForward(RawOf(Lines(contents[c])), x)
  {
    var raw;
    raw, x := ChartAxis(contents);
    data := [];
    for c := 0 to |contents|
      invariant |data| == c
      invariant forall k :: 0 <= k < c ==> data[k] == CarryForward(RawOf(Lines(contents[k])), x)
    {
      var series := FillForward(raw[c], x);
      data := data + [series];
    }
  }

  /** With a value, then two gaps, the page leaves the second gap empty; carried forward it is filled. */
  lemma OneStepLeavesGap()
    ensures var raw := map["t0" := Some("a")];
      var x := ["t0", "t1", "t2"];
      OneStepFill(raw, x) == [Some("a"), Some("a"), None]
      && CarryForward(raw, x) == [Some("a"), Some("a"), Some("a")]
  {
    var raw := map["t0" := Some("a")];
    var x := ["t0", "t1", "t2"];
    assert Lookup(raw, x[1]) == None && Lookup(raw, x[2]) == None;
    assert x[..2] == ["t0", "t1"] && x[..2][..1] == ["t0"] && x[..1] == ["t0"];
    assert CarryForward(raw, ["t0"]) == [Some("a")];
    assert CarryForward(raw, ["t0", "t1"]) == [Some("a"), Some("a")];
  }

  // ---------------------------------------------------------------------------
  // Lines 88-93: the day-before and day-after links

  /**
   * The `y`, `m`, `d` of the two links: the date moved back one day, then forward two days
   * on the same object, each printed as `Y/m/d` and split at `/`.
   */
  function NeighbourLinks(d: Date): (links: (seq<string>, seq<string>))
    requires ValidDate(d) && d.year >= 1
  {
    var pre := AddDays(d, -1);
    DayNumberAddDays(d, -1);
    var nxt := AddDays(pre, 2);
    assert pre.year >= 0 by {
      PrevDayYear(d);
    }
    assert nxt.year >= 0 by {
      AddDaysAdd(d, -1, 2);
      AddDaysYear(d);
    }
    (Split(FormatYmd(pre), '/'), Split(FormatYmd(nxt), '/'))
  }

  lemma PrevDayYear(d: Date)
    requires ValidDate(d) && d.year >= 1
    ensures AddDays(d, -1) == PrevDay(d) && PrevDay(d).year >= 0
  {
  }

  lemma AddDaysYear(d: Date)
    requires ValidDate(d) && d.year >= 1
    ensures AddDays(d, 1) == NextDay(d) && NextDay(d).year >= 1
  {
  }

  /** The links name the day before and the day after, as padded year, month and day. */
  lemma NeighbourLinksAreAdjacent(d: Date)
    requires ValidDate(d) && d.year >= 1
    ensures var (pre, nxt) := NeighbourLinks(d);
      && pre == [ZeroPad(PrevDay(d).year, 4), ZeroPad(PrevDay(d).month, 2), ZeroPad(PrevDay(d).day, 2)]
      && nxt == [ZeroPad(NextDay(d).year, 4), ZeroPad(NextDay(d).month, 2), ZeroPad(NextDay(d).day, 2)]
      && DayNumber(PrevDay(d)) == DayNumber(d) - 1
      && DayNumber(NextDay(d)) == DayNumber(d) + 1
  {
    PrevDayYear(d);
    AddDaysYear(d);
    AddDaysAdd(d, -1, 2);
    FormatYmdReads(PrevDay(d));
    FormatYmdReads(NextDay(d));
    DayNumberNext(d);
    DayNumberNext(PrevDay(d));
    NextOfPrev(d);
  }
}
