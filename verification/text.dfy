/** Decimal numerals and splitting/joining of strings, with the round trips between them. */
module Text {

  import opened Wrappers

  predicate IsDigit(c: char) { '0' <= c <= '9' }

  predicate AllDigits(s: string) {
    forall i :: 0 <= i < |s| ==> IsDigit(s[i])
  }

  function DigitChar(d: nat): (c: char)
    requires d < 10
    ensures IsDigit(c)
  {
    (d + '0' as int) as char
  }

  function DigitValue(c: char): (d: nat)
    requires IsDigit(c)
    ensures d < 10 && DigitChar(d) == c
  {
    c as int - '0' as int
  }

  /** Decimal numeral without leading zeros (Python's `str(int)`, an f-string `{n}`). */
  function NatToString(n: nat): (s: string)
    ensures |s| >= 1 && AllDigits(s)
    ensures s[0] == '0' ==> n == 0
    decreases n
  {
    if n < 10 then [DigitChar(n)] else NatToString(n / 10) + [DigitChar(n % 10)]
  }

  /** The value of a string of decimal digits (leading zeros allowed; "" reads as 0). */
  function ParseNat(s: string): nat
    requires AllDigits(s)
    decreases |s|
  {
    if s == [] then 0 else ParseNat(s[..|s| - 1]) * 10 + DigitValue(s[|s| - 1])
  }

  lemma {:induction false} ParseNatToString(n: nat)
    ensures ParseNat(NatToString(n)) == n
    decreases n
  {
    var s := NatToString(n);
    if n >= 10 {
      ParseNatToString(n / 10);
      assert s[..|s| - 1] == NatToString(n / 10);
    }
  }

  /** `n` in decimal, left-padded with '0' to at least `width` characters (`%02d`, `%Y`). */
  function ZeroPad(n: nat, width: nat): (s: string)
    ensures AllDigits(s)
    ensures |s| == if width > |NatToString(n)| then width else |NatToString(n)|
  {
    var digits := NatToString(n);
    if width > |digits| then Zeros(width - |digits|) + digits else digits
  }

  function Zeros(k: nat): (s: string)
    ensures |s| == k && AllDigits(s)
    ensures forall i :: 0 <= i < k ==> s[i] == '0'
  {
    seq(k, i => '0')
  }

  lemma {:induction false} ParseLeadingZeros(k: nat, s: string)
    requires AllDigits(s)
    ensures ParseNat(Zeros(k) + s) == ParseNat(s)
    decreases |s|
  {
    var z := Zeros(k);
    if s == [] {
      assert z + s == z;
      ParseZeros(k);
    } else {
      var t := z + s;
      assert t[..|t| - 1] == z + s[..|s| - 1];
      ParseLeadingZeros(k, s[..|s| - 1]);
    }
  }

  lemma {:induction false} ParseZeros(k: nat)
    ensures ParseNat(Zeros(k)) == 0
    decreases k
  {
    if k > 0 {
      assert Zeros(k)[..k - 1] == Zeros(k - 1);
      ParseZeros(k - 1);
    }
  }

  /** A zero-padded numeral reads back as the number it encodes. */
  lemma {:induction false} ParseZeroPad(n: nat, width: nat)
    ensures ParseNat(ZeroPad(n, width)) == n
  {
    var digits := NatToString(n);
    var padded := ZeroPad(n, width);
    ParseNatToString(n);
    if width > |digits| {
      assert padded == Zeros(width - |digits|) + digits;
      ParseLeadingZeros(width - |digits|, digits);
    } else {
      assert padded == digits;
    }
    assert ParseNat(padded) == ParseNat(digits);
  }

  /** The longest prefix made of decimal digits. */
  function DigitPrefix(s: string): (r: string)
    ensures r <= s && AllDigits(r)
    ensures |r| < |s| ==> !IsDigit(s[|r|])
    decreases |s|
  {
    if s != [] && IsDigit(s[0]) then [s[0]] + DigitPrefix(s[1..]) else []
  }

  /** A string of digits is its own digit prefix. */
  lemma {:induction false} DigitPrefixAll(s: string)
    requires AllDigits(s)
    ensures DigitPrefix(s) == s
    decreases |s|
  {
    if s != [] {
      DigitPrefixAll(s[1..]);
      assert s == [s[0]] + s[1..];
    }
  }

  /**
   * Split at every occurrence of the one-character separator `c` (JavaScript's
   * `s.split(c)`, PHP's `explode(c, s)`): always at least one part, "" gives [""].
   */
  function Split(s: string, c: char): (parts: seq<string>)
    ensures |parts| >= 1
    ensures forall i :: 0 <= i < |parts| ==> c !in parts[i]
    decreases |s|
  {
    if s == [] then [""]
    else
      var rest := Split(s[1..], c);
      if s[0] == c then [""] + rest else [[s[0]] + rest[0]] + rest[1..]
  }

  /** The parts separated by `sep` (Python's `sep.join(parts)`). */
  function Join(parts: seq<string>, sep: string): string
    decreases |parts|
  {
    if parts == [] then ""
    else if |parts| == 1 then parts[0]
    else parts[0] + sep + Join(parts[1..], sep)
  }

  /** Splitting and re-joining with the same separator gives back the string. */
  lemma {:induction false} JoinSplit(s: string, c: char)
    ensures Join(Split(s, c), [c]) == s
    decreases |s|
  {
    if s != [] {
      var rest := Split(s[1..], c);
      JoinSplit(s[1..], c);
      if s[0] == c {
        assert Split(s, c) == [""] + rest;
        assert ([""] + rest)[1..] == rest;
      } else {
        var parts := [[s[0]] + rest[0]] + rest[1..];
        if |rest| == 1 {
          assert Join(parts, [c]) == [s[0]] + rest[0];
        } else {
          assert parts[1..] == rest[1..];
          assert Join(rest, [c]) == rest[0] + [c] + Join(rest[1..], [c]);
        }
        assert [s[0]] + s[1..] == s;
      }
    }
  }

  /** The first part is the text before the first separator (all of `s` when there is none). */
  lemma {:induction false} SplitHead(s: string, c: char)
    ensures Split(s, c)[0] <= s
    ensures |Split(s, c)| == 1 <==> c !in s
    ensures |Split(s, c)[0]| < |s| ==> s[|Split(s, c)[0]|] == c
    decreases |s|
  {
    if s != [] {
      SplitHead(s[1..], c);
      assert s == [s[0]] + s[1..];
    }
  }

  /** A string free of the separator is a single part. */
  lemma {:induction false} SplitNoSep(a: string, c: char)
    requires c !in a
    ensures Split(a, c) == [a]
    decreases |a|
  {
    if a != [] {
      SplitNoSep(a[1..], c);
      assert [a[0]] + a[1..] == a;
    }
  }

  /** A separator-free leading part is split off exactly. */
  lemma {:induction false} SplitCons(a: string, c: char, b: string)
    requires c !in a
    ensures Split(a + [c] + b, c) == [a] + Split(b, c)
    decreases |a|
  {
    var s := a + [c] + b;
    if a == [] {
      assert s[1..] == b;
    } else {
      assert s[1..] == a[1..] + [c] + b;
      SplitCons(a[1..], c, b);
      assert [a[0]] + a[1..] == a;
    }
  }

  /** `sub` occurs somewhere in `s` (Python's `sub in s`). */
  predicate Contains(s: string, sub: string)
    decreases |s|
  {
    sub <= s || (s != [] && Contains(s[1..], sub))
  }

  /**
   * Split at every occurrence of the non-empty separator `sep`, scanning left to right
   * (Python's `s.split(sep)`).
   */
  function SplitOn(s: string, sep: string): (parts: seq<string>)
    requires |sep| > 0
    ensures |parts| >= 1
    decreases |s|
  {
    if s == [] then [""]
    else if sep <= s then [""] + SplitOn(s[|sep|..], sep)
    else
      var rest := SplitOn(s[1..], sep);
      [[s[0]] + rest[0]] + rest[1..]
  }

  /**
   * No occurrence of `sep` starts inside `x`, even when `sep` itself follows `x`:
   * then `x` is recovered whole when it is the first part of a joined string.
   */
  predicate SeparableBy(x: string, sep: string) {
    forall i :: 0 <= i < |x| ==> !(sep <= x[i..] + sep)
  }

  lemma {:induction false} SplitOnCons(x: string, sep: string, rest: string)
    requires |sep| > 0 && SeparableBy(x, sep)
    ensures SplitOn(x + sep + rest, sep) == [x] + SplitOn(rest, sep)
    decreases |x|
  {
    var s := x + sep + rest;
    if x == [] {
      assert s == sep + rest;
      assert s[|sep|..] == rest;
    } else {
      assert x[0..] == x;
      assert s == x[0..] + sep + rest;
      assert !(sep <= x[0..] + sep);
      assert s[1..] == x[1..] + sep + rest;
      assert SeparableBy(x[1..], sep) by {
        forall i | 0 <= i < |x[1..]| ensures !(sep <= x[1..][i..] + sep) {
          assert x[1..][i..] == x[i + 1..];
        }
      }
      SplitOnCons(x[1..], sep, rest);
      assert [x[0]] + x[1..] == x;
    }
  }

  lemma {:induction false} SplitOnLast(x: string, sep: string)
    requires |sep| > 0 && SeparableBy(x, sep)
    ensures SplitOn(x, sep) == [x]
    decreases |x|
  {
    if x != [] {
      assert x[0..] == x;
      assert !(sep <= x) by {
        assert !(sep <= x[0..] + sep);
      }
      assert SeparableBy(x[1..], sep) by {
        forall i | 0 <= i < |x[1..]| ensures !(sep <= x[1..][i..] + sep) {
          assert x[1..][i..] == x[i + 1..];
        }
      }
      SplitOnLast(x[1..], sep);
      assert [x[0]] + x[1..] == x;
    }
  }

  /** Joining separable parts and splitting again recovers the parts. */
  lemma {:induction false} SplitOnJoin(parts: seq<string>, sep: string)
    requires |sep| > 0 && |parts| >= 1
    requires forall i :: 0 <= i < |parts| ==> SeparableBy(parts[i], sep)
    ensures SplitOn(Join(parts, sep), sep) == parts
    decreases |parts|
  {
    if |parts| == 1 {
      SplitOnLast(parts[0], sep);
    } else {
      SplitOnJoin(parts[1..], sep);
      SplitOnCons(parts[0], sep, Join(parts[1..], sep));
      assert [parts[0]] + parts[1..] == parts;
    }
  }

  /** Digits-only, non-empty. */
  predicate IsNumeral(s: string) { |s| > 0 && AllDigits(s) }

  lemma NumeralHasNo(s: string, c: char)
    requires AllDigits(s) && !IsDigit(c)
    ensures c !in s
  {
  }

  /**
   * The numbers written in `s` between separators `c`, when every part is a numeral;
   * the reader used to check what the date formatters produce.
   */
  function ReadNumbers(s: string, c: char): (r: Option<seq<nat>>)
    ensures r.Some? ==> |r.value| == |Split(s, c)|
  {
    ReadParts(Split(s, c))
  }

  function ReadParts(parts: seq<string>): (r: Option<seq<nat>>)
    ensures r.Some? ==> |r.value| == |parts|
    decreases |parts|
  {
    if parts == [] then Some([])
    else if !IsNumeral(parts[0]) then None
    else
      match ReadParts(parts[1..])
      case None => None
      case Some(rest) => Some([ParseNat(parts[0])] + rest)
  }

  lemma ReadPartsCons(p: string, rest: seq<string>, values: seq<nat>)
    requires IsNumeral(p) && ReadParts(rest) == Some(values)
    ensures ReadParts([p] + rest) == Some([ParseNat(p)] + values)
  {
    assert ([p] + rest)[1..] == rest;
  }

  lemma ReadPartsSingle(p: string)
    requires IsNumeral(p)
    ensures ReadParts([p]) == Some([ParseNat(p)])
  {
    ReadPartsCons(p, [], []);
    assert [p] + [] == [p];
    assert [ParseNat(p)] + [] == [ParseNat(p)];
  }

  lemma ReadTwoNumbers(a: string, b: string, c: char)
    requires IsNumeral(a) && IsNumeral(b) && !IsDigit(c)
    ensures ReadNumbers(a + [c] + b, c) == Some([ParseNat(a), ParseNat(b)])
  {
    SplitNoSep(b, c);
    SplitCons(a, c, b);
    assert [a] + [b] == [a, b];
    ReadPartsSingle(b);
    ReadPartsCons(a, [b], [ParseNat(b)]);
    assert [ParseNat(a)] + [ParseNat(b)] == [ParseNat(a), ParseNat(b)];
  }

  lemma SplitThree(a: string, b: string, d: string, c: char)
    requires c !in a && c !in b && c !in d
    ensures Split(a + [c] + b + [c] + d, c) == [a, b, d]
  {
    var tail := b + [c] + d;
    assert a + [c] + b + [c] + d == a + [c] + tail;
    SplitNoSep(d, c);
    SplitCons(b, c, d);
    assert [b] + [d] == [b, d];
    SplitCons(a, c, tail);
    assert [a] + [b, d] == [a, b, d];
  }

  lemma ReadPartsTriple(a: string, b: string, d: string)
    requires IsNumeral(a) && IsNumeral(b) && IsNumeral(d)
    ensures ReadParts([a, b, d]) == Some([ParseNat(a), ParseNat(b), ParseNat(d)])
  {
    ReadPartsSingle(d);
    ReadPartsCons(b, [d], [ParseNat(d)]);
    assert [b] + [d] == [b, d];
    assert [ParseNat(b)] + [ParseNat(d)] == [ParseNat(b), ParseNat(d)];
    ReadPartsCons(a, [b, d], [ParseNat(b), ParseNat(d)]);
    assert [a] + [b, d] == [a, b, d];
    assert [ParseNat(a)] + [ParseNat(b), ParseNat(d)] == [ParseNat(a), ParseNat(b), ParseNat(d)];
  }

  lemma ReadThreeNumbers(a: string, b: string, d: string, c: char)
    requires IsNumeral(a) && IsNumeral(b) && IsNumeral(d) && !IsDigit(c)
    ensures ReadNumbers(a + [c] + b + [c] + d, c) == Some([ParseNat(a), ParseNat(b), ParseNat(d)])
  {
    NumeralHasNo(a, c);
    NumeralHasNo(b, c);
    NumeralHasNo(d, c);
    SplitThree(a, b, d, c);
    ReadPartsTriple(a, b, d);
  }
}
