/**
 * The frontend helpers of `utils/misc.js`: renaming snake_case keys of decoded JSON to
 * camelCase, and reading the date and time fields of an ISO 8601 timestamp, down to
 * the millisecond count `Date.UTC` returns for them.
 */
module Misc {

  import opened Wrappers
  import opened Seqs
  import opened Text
  import opened Calendar

  // ---------------------------------------------------------------------------
  // snakeToCamel

  /** The characters `.` in a JavaScript regular expression does not match. */
  predicate IsLineTerminator(c: char) {
    c == '\n' || c == '\r' || c == '\U{2028}' || c == '\U{2029}'
  }

  predicate IsLowerAscii(c: char) { 'a' <= c <= 'z' }
  predicate IsUpperAscii(c: char) { 'A' <= c <= 'Z' }

  function ToUpper(c: char): (u: char)
    ensures IsLowerAscii(c) ==> IsUpperAscii(u)
    ensures !IsLowerAscii(c) ==> u == c
  {
    if IsLowerAscii(c) then (c as int - 32) as char else c
  }

  function ToLower(c: char): (l: char)
    ensures IsUpperAscii(c) ==> IsLowerAscii(l)
    ensures !IsUpperAscii(c) ==> l == c
  {
    if IsUpperAscii(c) then (c as int + 32) as char else c
  }

  lemma LowerOfUpper(c: char)
    requires IsLowerAscii(c)
    ensures ToLower(ToUpper(c)) == c
  {
    assert ToUpper(c) as int == c as int - 32;
  }

  /**
   * `snakeToCamel`: scanning left to right, every `_` followed by a character other
   * than a line terminator is dropped and that character upper-cased; the scan then
   * goes on after it, so matches never overlap.
   */
  function SnakeToCamel(s: string): (r: string)
    ensures |r| <= |s|
    ensures '_' !in s ==> r == s
    ensures |s| > 0 && s[|s| - 1] == '_' ==> |r| > 0 && r[|r| - 1] == '_'
    decreases |s|
  {
    if |s| >= 2 && s[0] == '_' && !IsLineTerminator(s[1]) then
      [ToUpper(s[1])] + SnakeToCamel(s[2..])
    else if s == [] then
      []
    else
      [s[0]] + SnakeToCamel(s[1..])
  }

  /** The opposite direction: every upper-case letter becomes `_` and its lower-case letter. */
  function CamelToSnake(s: string): (r: string)
    decreases |s|
  {
    if s == [] then []
    else (if IsUpperAscii(s[0]) then ['_', ToLower(s[0])] else [s[0]]) + CamelToSnake(s[1..])
  }

  /** Position `i` of `s` is not an upper-case letter, and a `_` there is followed by a lower-case letter. */
  predicate SnakeAt(s: string, i: nat)
    requires i < |s|
  {
    !IsUpperAscii(s[i]) && (s[i] == '_' ==> i + 1 < |s| && IsLowerAscii(s[i + 1]))
  }

  /** A snake_case name: no upper-case letter, and every `_` followed by a lower-case letter. */
  predicate IsSnake(s: string) {
    forall i: nat :: i < |s| ==> SnakeAt(s, i)
  }

  lemma SnakeSuffix(s: string, k: nat)
    requires IsSnake(s) && k <= |s|
    ensures IsSnake(s[k..])
  {
    var t := s[k..];
    forall i: nat | i < |t| ensures SnakeAt(t, i) {
      assert SnakeAt(s, k + i);
      if i + 1 < |t| {
        assert t[i + 1] == s[k + i + 1];
      }
    }
  }

  lemma CamelToSnakeCons(c: char, t: string)
    ensures CamelToSnake([c] + t) == (if IsUpperAscii(c) then ['_', ToLower(c)] else [c]) + CamelToSnake(t)
  {
    assert ([c] + t)[1..] == t;
  }

  /** A snake_case name comes out with no `_`, and turning it back gives the name again. */
  lemma {:induction false} SnakeRoundTrip(s: string)
    requires IsSnake(s)
    ensures '_' !in SnakeToCamel(s)
    ensures CamelToSnake(SnakeToCamel(s)) == s
    decreases |s|
  {
    if s != [] {
      assert SnakeAt(s, 0);
      var r := SnakeToCamel(s);
      var k := if s[0] == '_' then 2 else 1;
      var t := s[k..];
      SnakeSuffix(s, k);
      SnakeRoundTrip(t);
      var c := if s[0] == '_' then ToUpper(s[1]) else s[0];
      assert r == [c] + SnakeToCamel(t);
      CamelToSnakeCons(c, SnakeToCamel(t));
      assert s == s[..k] + t;
      if s[0] == '_' {
        LowerOfUpper(s[1]);
        assert s[..k] == ['_', ToLower(c)];
      } else {
        assert s[..k] == [c];
      }
    }
  }

  /** Distinct snake_case names stay distinct. */
  lemma SnakeToCamelInjective(a: string, b: string)
    requires IsSnake(a) && IsSnake(b) && a != b
    ensures SnakeToCamel(a) != SnakeToCamel(b)
  {
    SnakeRoundTrip(a);
    SnakeRoundTrip(b);
  }

  // ---------------------------------------------------------------------------
  // renameObjectKeys

  /** A decoded JSON value; an object keeps its members in insertion order. */
  datatype Json = Null | Bool(b: bool) | Num(n: real) | Str(s: string) | Arr(items: seq<Json>) | Obj(members: seq<Member>)
  datatype Member = Member(key: string, value: Json)

  function MemberKeys(ms: seq<Member>): (r: seq<string>)
    ensures |r| == |ms| && forall i :: 0 <= i < |ms| ==> r[i] == ms[i].key
  {
    seq(|ms|, i requires 0 <= i < |ms| => ms[i].key)
  }

  /** Setting a property: an existing key keeps its place and takes the new value, a new key goes last. */
  function Put(ms: seq<Member>, m: Member): (r: seq<Member>)
    decreases |ms|
  {
    if ms == [] then [m]
    else if ms[0].key == m.key then [m] + ms[1..]
    else [ms[0]] + Put(ms[1..], m)
  }

  /** Setting a property adds its key only when the key is new. */
  lemma {:induction false} PutKeys(ms: seq<Member>, m: Member)
    ensures MemberKeys(Put(ms, m)) == if m.key in MemberKeys(ms) then MemberKeys(ms) else MemberKeys(ms) + [m.key]
    decreases |ms|
  {
    if ms != [] {
      assert MemberKeys(ms) == [ms[0].key] + MemberKeys(ms[1..]);
      if ms[0].key == m.key {
        assert MemberKeys(Put(ms, m)) == [m.key] + MemberKeys(ms[1..]);
      } else {
        PutKeys(ms[1..], m);
        assert MemberKeys(Put(ms, m)) == [ms[0].key] + MemberKeys(Put(ms[1..], m));
      }
    }
  }

  /** Setting a property with a new key appends it. */
  lemma {:induction false} PutFresh(ms: seq<Member>, m: Member)
    requires m.key !in MemberKeys(ms)
    ensures Put(ms, m) == ms + [m]
    decreases |ms|
  {
    if ms != [] {
      assert MemberKeys(ms) == [ms[0].key] + MemberKeys(ms[1..]);
      PutFresh(ms[1..], m);
      assert ms == [ms[0]] + ms[1..];
    }
  }

  /** In an object with distinct keys, setting a property replaces the member with that key and no other. */
  lemma {:induction false} PutMembers(ms: seq<Member>, m: Member, x: Member)
    requires NoDup(MemberKeys(ms))
    ensures x in Put(ms, m) <==> x == m || (x in ms && x.key != m.key)
    decreases |ms|
  {
    if ms != [] {
      var tail := ms[1..];
      assert MemberKeys(tail) == MemberKeys(ms)[1..];
      NoDupTail(MemberKeys(ms));
      assert x in ms <==> x == ms[0] || x in tail;
      if ms[0].key == m.key {
        assert Put(ms, m) == [m] + tail;
        assert x in tail ==> x.key != m.key by {
          if x in tail {
            var i :| 0 <= i < |tail| && tail[i] == x;
            assert MemberKeys(tail)[i] == x.key;
          }
        }
      } else {
        assert Put(ms, m) == [ms[0]] + Put(tail, m);
        PutMembers(tail, m, x);
      }
    }
  }

  /** `Object.fromEntries`: the members set one after another. */
  function FromEntries(ms: seq<Member>): (r: seq<Member>)
    decreases |ms|
  {
    if ms == [] then [] else Put(FromEntries(ms[..|ms| - 1]), ms[|ms| - 1])
  }

  /** No entry after position `i` has the same key. */
  predicate LastOfKey(ms: seq<Member>, i: nat)
    requires i < |ms|
  {
    forall j :: i < j < |ms| ==> ms[j].key != ms[i].key
  }

  /** The object built from entries has each key of the entries, once. */
  lemma {:induction false} FromEntriesKeys(ms: seq<Member>)
    ensures NoDup(MemberKeys(FromEntries(ms)))
    ensures forall k :: k in MemberKeys(FromEntries(ms)) <==> k in MemberKeys(ms)
    decreases |ms|
  {
    if ms != [] {
      var n := |ms| - 1;
      var prev := FromEntries(ms[..n]);
      assert FromEntries(ms) == Put(prev, ms[n]);
      FromEntriesKeys(ms[..n]);
      PutKeys(prev, ms[n]);
      assert MemberKeys(ms) == MemberKeys(ms[..n]) + [ms[n].key];
      if ms[n].key !in MemberKeys(prev) {
        NoDupSnoc(MemberKeys(prev), ms[n].key);
      }
    }
  }

  lemma FromEntriesNoDup(ms: seq<Member>)
    ensures NoDup(MemberKeys(FromEntries(ms)))
  {
    FromEntriesKeys(ms);
  }

  /** Entries with distinct keys build the object with exactly those members, in order. */
  lemma {:induction false} FromEntriesDistinct(ms: seq<Member>)
    requires NoDup(MemberKeys(ms))
    ensures FromEntries(ms) == ms
    decreases |ms|
  {
    if ms != [] {
      var n := |ms| - 1;
      assert MemberKeys(ms[..n]) == MemberKeys(ms)[..n];
      FromEntriesDistinct(ms[..n]);
      forall i | 0 <= i < n ensures MemberKeys(ms[..n])[i] != ms[n].key {
        assert MemberKeys(ms)[i] != MemberKeys(ms)[n];
      }
      PutFresh(ms[..n], ms[n]);
      assert ms[..n] + [ms[n]] == ms;
    }
  }

  /** Each member of the built object is an entry that no later entry overrides; `i` is its position. */
  lemma {:induction false} FromEntriesSound(ms: seq<Member>, x: Member) returns (i: nat)
    requires x in FromEntries(ms)
    ensures i < |ms| && x == ms[i] && LastOfKey(ms, i)
    decreases |ms|
  {
    var n := |ms| - 1;
    var init := ms[..n];
    assert FromEntries(ms) == Put(FromEntries(init), ms[n]);
    FromEntriesNoDup(init);
    PutMembers(FromEntries(init), ms[n], x);
    if x == ms[n] {
      i := n;
    } else {
      assert x in FromEntries(init) && x.key != ms[n].key;
      i := FromEntriesSound(init, x);
      assert ms[i] == init[i];
      forall j | i < j < |ms| ensures ms[j].key != ms[i].key {
        if j < n {
          assert ms[j] == init[j];
        }
      }
    }
  }

  /** Each entry that no later entry overrides is a member of the built object. */
  lemma {:induction false} FromEntriesComplete(ms: seq<Member>, i: nat)
    requires i < |ms| && LastOfKey(ms, i)
    ensures ms[i] in FromEntries(ms)
    decreases |ms|
  {
    var n := |ms| - 1;
    var init := ms[..n];
    FromEntriesKeys(init);
    PutMembers(FromEntries(init), ms[n], ms[i]);
    if i < n {
      assert ms[i].key != ms[n].key;
      assert LastOfKey(init, i);
      FromEntriesComplete(init, i);
    }
  }

  /**
   * `renameObjectKeys`: scalars and null as they are, arrays element by element, objects
   * rebuilt from their renamed keys and renamed values.
   */
  function RenameObjectKeys(j: Json): (r: Json)
    ensures !j.Arr? && !j.Obj? ==> r == j
    ensures j.Arr? <==> r.Arr?
    ensures j.Obj? <==> r.Obj?
    ensures j.Arr? ==> |r.items| == |j.items|
    decreases j
  {
    match j
    case Arr(items) => Arr(seq(|items|, i requires 0 <= i < |items| => RenameObjectKeys(items[i])))
    case Obj(ms) => Obj(FromEntries(RenamedMembers(ms)))
    case _ => j
  }

  function RenamedMembers(ms: seq<Member>): (r: seq<Member>)
    ensures |r| == |ms|
    decreases ms
  {
    seq(|ms|, i requires 0 <= i < |ms| => Member(SnakeToCamel(ms[i].key), RenameObjectKeys(ms[i].value)))
  }

  /** On an object, the renamed keys come out distinct and every input key's renamed form is one of them. */
  lemma RenameObjectKeysOfObject(ms: seq<Member>)
    ensures NoDup(MemberKeys(RenameObjectKeys(Obj(ms)).members))
    ensures forall i :: 0 <= i < |ms| ==> SnakeToCamel(ms[i].key) in MemberKeys(RenameObjectKeys(Obj(ms)).members)
  {
    var rm := RenamedMembers(ms);
    FromEntriesKeys(rm);
    forall i | 0 <= i < |ms| ensures SnakeToCamel(ms[i].key) in MemberKeys(FromEntries(rm)) {
      assert MemberKeys(rm)[i] == SnakeToCamel(ms[i].key);
    }
  }

  /**
   * Each member of a renamed object is the renamed key and renamed value of an input
   * member, the last one whose key renames to that key.
   */
  lemma RenameObjectMemberSource(ms: seq<Member>, x: Member)
    requires x in RenameObjectKeys(Obj(ms)).members
    ensures exists i ::
      && 0 <= i < |ms|
      && x == Member(SnakeToCamel(ms[i].key), RenameObjectKeys(ms[i].value))
      && forall k :: i < k < |ms| ==> SnakeToCamel(ms[k].key) != SnakeToCamel(ms[i].key)
  {
    var rm := RenamedMembers(ms);
    var i := FromEntriesSound(rm, x);
    assert forall k :: i < k < |ms| ==> rm[k].key == SnakeToCamel(ms[k].key);
  }

  /** All object keys, at every depth, are distinct snake_case names. */
  predicate SnakeKeys(j: Json)
    decreases j
  {
    match j
    case Arr(items) => forall i :: 0 <= i < |items| ==> SnakeKeys(items[i])
    case Obj(ms) => NoDup(MemberKeys(ms)) && forall i :: 0 <= i < |ms| ==> IsSnake(ms[i].key) && SnakeKeys(ms[i].value)
    case _ => true
  }

  /** The inverse renaming, key by key. */
  function UnrenameObjectKeys(j: Json): Json
    decreases j
  {
    match j
    case Arr(items) => Arr(seq(|items|, i requires 0 <= i < |items| => UnrenameObjectKeys(items[i])))
    case Obj(ms) => Obj(seq(|ms|, i requires 0 <= i < |ms| => Member(CamelToSnake(ms[i].key), UnrenameObjectKeys(ms[i].value))))
    case _ => j
  }

  /** The keys renamed one by one. */
  function CamelKeys(keys: seq<string>): (r: seq<string>)
    ensures |r| == |keys|
  {
    seq(|keys|, i requires 0 <= i < |keys| => SnakeToCamel(keys[i]))
  }

  lemma RenamedMemberKeys(ms: seq<Member>)
    ensures MemberKeys(RenamedMembers(ms)) == CamelKeys(MemberKeys(ms))
  {
  }

  /** Distinct snake_case keys rename to distinct keys. */
  lemma CamelKeysDistinct(keys: seq<string>)
    requires NoDup(keys) && forall i :: 0 <= i < |keys| ==> IsSnake(keys[i])
    ensures NoDup(CamelKeys(keys))
  {
    var r := CamelKeys(keys);
    forall a, b | 0 <= a < b < |r| ensures r[a] != r[b] {
      SnakeToCamelInjective(keys[a], keys[b]);
    }
  }

  /** On a value whose keys are distinct snake_case names, renaming loses nothing: it can be undone. */
  lemma {:induction false} RenameRoundTrip(j: Json)
    requires SnakeKeys(j)
    ensures UnrenameObjectKeys(RenameObjectKeys(j)) == j
    decreases j
  {
    match j
    case Arr(items) =>
      var r := RenameObjectKeys(j).items;
      forall i | 0 <= i < |items| ensures UnrenameObjectKeys(r[i]) == items[i] {
        RenameRoundTrip(items[i]);
      }
    case Obj(ms) =>
      var rm := RenamedMembers(ms);
      RenamedMemberKeys(ms);
      CamelKeysDistinct(MemberKeys(ms));
      FromEntriesDistinct(rm);
      assert RenameObjectKeys(j).members == rm;
      forall i | 0 <= i < |ms| ensures Member(CamelToSnake(rm[i].key), UnrenameObjectKeys(rm[i].value)) == ms[i] {
        SnakeRoundTrip(ms[i].key);
        RenameRoundTrip(ms[i].value);
      }
    case _ =>
  }

  // ---------------------------------------------------------------------------
  // ISO 8601 timestamps

  /** `getDateFromISOString`: the `-`-separated parts of the text before the first `T`. */
  function DateFromIsoString(s: string): seq<string>
  {
    Split(Split(s, 'T')[0], '-')
  }

  /** Re-joined with `-`, the date parts give back the text before the first `T`, or all of it. */
  lemma DateFromIsoStringPrefix(s: string)
    ensures Join(DateFromIsoString(s), "-") <= s && 'T' !in Join(DateFromIsoString(s), "-")
    ensures |Join(DateFromIsoString(s), "-")| == |s| || s[|Join(DateFromIsoString(s), "-")|] == 'T'
  {
    SplitHead(s, 'T');
    JoinSplit(Split(s, 'T')[0], '-');
  }

  /**
   * `getTimeFromISOString`: the `:`-separated parts of the text after the first `T`,
   * each cut at its first `.`; `None` where the source throws (no `T`).
   */
  function TimeFromIsoString(s: string): (r: Option<seq<string>>)
    ensures r.None? <==> 'T' !in s
    ensures r.Some? ==> forall i :: 0 <= i < |r.value| ==> '.' !in r.value[i]
  {
    var halves := Split(s, 'T');
    SplitHead(s, 'T');
    if |halves| < 2 then None else Some(CutFractions(Split(halves[1], ':')))
  }

  /** Each part up to its first `.`. */
  function CutFractions(parts: seq<string>): (r: seq<string>)
    ensures |r| == |parts| && forall i :: 0 <= i < |r| ==> '.' !in r[i]
  {
    seq(|parts|, i requires 0 <= i < |parts| => Split(parts[i], '.')[0])
  }

  /** ECMAScript's white space and line terminators, which `parseInt` skips first. */
  predicate IsJsSpace(c: char) {
    c == '\t' || c == '\n' || c == '\U{000B}' || c == '\U{000C}' || c == '\r' || c == ' '
    || c == '\U{00A0}' || c == '\U{1680}' || ('\U{2000}' <= c <= '\U{200A}') || c == '\U{2028}'
    || c == '\U{2029}' || c == '\U{202F}' || c == '\U{205F}' || c == '\U{3000}' || c == '\U{FEFF}'
  }

  function TrimStart(s: string): (r: string)
    ensures |r| <= |s| && r == s[|s| - |r|..] && (r == [] || !IsJsSpace(r[0]))
    decreases |s|
  {
    if s != [] && IsJsSpace(s[0]) then
      var r := TrimStart(s[1..]);
      assert s[1..][|s[1..]| - |r|..] == s[|s| - |r|..];
      r
    else
      s
  }

  /** `parseInt(s, 10)`; `None` stands for NaN. */
  function ParseInt(s: string): Option<int>
  {
    var t := TrimStart(s);
    var unsigned := if t != [] && (t[0] == '-' || t[0] == '+') then t[1..] else t;
    var digits := DigitPrefix(unsigned);
    if digits == [] then None
    else
      var v: int := ParseNat(digits);
      if t[0] == '-' then Some(-v) else Some(v)
  }

  /** A numeral reads as its value, and text with no digit before its first non-digit as NaN. */
  lemma ParseIntNumeral(s: string)
    requires IsNumeral(s)
    ensures ParseInt(s) == Some(ParseNat(s))
  {
    assert TrimStart(s) == s;
    assert DigitPrefix(s) == s by {
      DigitPrefixAll(s);
    }
  }

  /** What `Date.UTC` gives: NaN (an argument or the result out of range) or milliseconds since the epoch. */
  datatype UtcResult = Throws | NaN | Millis(ms: int)

  /** The largest time value, in milliseconds either side of the epoch. */
  const MAX_TIME: int := 8_640_000_000_000_000

  /** `Date.UTC`'s year rule: 0 to 99 stand for 1900 to 1999. */
  function FullYear(y: int): (r: int)
    ensures 0 <= y <= 99 ==> r == 1900 + y
    ensures !(0 <= y <= 99) ==> r == y
  {
    if 0 <= y <= 99 then 1900 + y else y
  }

  /** ECMAScript's MakeDay: the month index may lie outside 0..11 and carries into the year. */
  function MakeDay(year: int, monthIndex: int, date: int): int
  {
    var ym := year + monthIndex / 12;
    var mn := monthIndex % 12;
    DayNumber(Date(ym, mn + 1, 1)) + date - 1
  }

  /** `Date.UTC(yy, month, dd, HH, MM, SS)` on integer arguments, with TimeClip. */
  function DateUtc(yy: int, month: int, dd: int, hh: int, mm: int, ss: int): (r: UtcResult)
    ensures r != Throws
    ensures r.Millis? ==> -MAX_TIME <= r.ms <= MAX_TIME
  {
    var t := MakeDay(FullYear(yy), month, dd) * 86_400_000 + hh * 3_600_000 + mm * 60_000 + ss * 1000;
    if -MAX_TIME <= t <= MAX_TIME then Millis(t) else NaN
  }

  /** The first three parts read with `parseInt`; `None` when one is missing or NaN. */
  function ReadFirstThree(parts: seq<string>): (r: Option<seq<int>>)
    ensures r.Some? ==> |r.value| == 3
  {
    if |parts| < 3 then None
    else
      var a, b, c := ParseInt(parts[0]), ParseInt(parts[1]), ParseInt(parts[2]);
      if a.Some? && b.Some? && c.Some? then Some([a.value, b.value, c.value]) else None
  }

  lemma ReadThreeNumerals(a: string, b: string, c: string)
    requires IsNumeral(a) && IsNumeral(b) && IsNumeral(c)
    ensures ReadFirstThree([a, b, c]) == Some([ParseNat(a), ParseNat(b), ParseNat(c)])
  {
    ParseIntNumeral(a);
    ParseIntNumeral(b);
    ParseIntNumeral(c);
  }

  /**
   * `getUTCFromISOString`: the first three date parts and the first three time parts read
   * with `parseInt`; a missing or unreadable one gives NaN, a missing `T` throws.
   */
  function UtcFromIsoString(s: string): (r: UtcResult)
    ensures r == Throws <==> 'T' !in s
  {
    match TimeFromIsoString(s)
    case None => Throws
    case Some(time) => UtcOfReads(ReadFirstThree(DateFromIsoString(s)), ReadFirstThree(time))
  }

  /** NaN when a date or time part could not be read, else `Date.UTC` of them, the month less one. */
  function UtcOfReads(date: Option<seq<int>>, clock: Option<seq<int>>): (r: UtcResult)
    requires date.Some? ==> |date.value| == 3
    requires clock.Some? ==> |clock.value| == 3
    ensures r != Throws
  {
    if date.None? || clock.None? then NaN
    else DateUtc(date.value[0], date.value[1] - 1, date.value[2], clock.value[0], clock.value[1], clock.value[2])
  }

  // The timestamps the backend sends: Python's `datetime.isoformat()`.

  function Seconds(t: Stamp): nat { t.micros / 1_000_000 }
  function Hour(t: Stamp): nat { Seconds(t) / 60 / 60 }
  function Minute(t: Stamp): nat { Seconds(t) / 60 % 60 }
  function Second(t: Stamp): nat { Seconds(t) % 60 }

  function IsoDate(t: Stamp): string {
    ZeroPad(t.date.year, 4) + "-" + ZeroPad(t.date.month, 2) + "-" + ZeroPad(t.date.day, 2)
  }

  function IsoFraction(t: Stamp): string {
    var f := t.micros % 1_000_000;
    if f == 0 then "" else "." + ZeroPad(f, 6)
  }

  function IsoTime(t: Stamp): string {
    ZeroPad(Hour(t), 2) + ":" + ZeroPad(Minute(t), 2) + ":" + ZeroPad(Second(t), 2) + IsoFraction(t)
  }

  /** `YYYY-MM-DDTHH:MM:SS`, with `.ffffff` when the microseconds are not zero. */
  function IsoFormat(t: Stamp): string {
    IsoDate(t) + "T" + IsoTime(t)
  }

  lemma IsoPartsFree(t: Stamp)
    ensures 'T' !in IsoDate(t) && 'T' !in IsoTime(t) && ':' !in IsoFraction(t)
    ensures '-' !in ZeroPad(t.date.year, 4) && '-' !in ZeroPad(t.date.month, 2) && '-' !in ZeroPad(t.date.day, 2)
    ensures ':' !in ZeroPad(Hour(t), 2) && ':' !in ZeroPad(Minute(t), 2)
    ensures '.' !in ZeroPad(Hour(t), 2) && '.' !in ZeroPad(Minute(t), 2) && '.' !in ZeroPad(Second(t), 2)
    ensures ':' !in ZeroPad(Second(t), 2)
  {
    NumeralHasNo(ZeroPad(t.date.year, 4), 'T');
    NumeralHasNo(ZeroPad(t.date.month, 2), 'T');
    NumeralHasNo(ZeroPad(t.date.day, 2), 'T');
    NumeralHasNo(ZeroPad(t.date.year, 4), '-');
    NumeralHasNo(ZeroPad(t.date.month, 2), '-');
    NumeralHasNo(ZeroPad(t.date.day, 2), '-');
    NumeralHasNo(ZeroPad(Hour(t), 2), 'T');
    NumeralHasNo(ZeroPad(Minute(t), 2), 'T');
    NumeralHasNo(ZeroPad(Second(t), 2), 'T');
    NumeralHasNo(ZeroPad(Hour(t), 2), ':');
    NumeralHasNo(ZeroPad(Minute(t), 2), ':');
    NumeralHasNo(ZeroPad(Second(t), 2), ':');
    NumeralHasNo(ZeroPad(Hour(t), 2), '.');
    NumeralHasNo(ZeroPad(Minute(t), 2), '.');
    NumeralHasNo(ZeroPad(Second(t), 2), '.');
    NumeralHasNo(ZeroPad(t.micros % 1_000_000, 6), 'T');
    NumeralHasNo(ZeroPad(t.micros % 1_000_000, 6), ':');
  }

  /** The date of a backend timestamp reads back as its padded year, month and day. */
  lemma DateOfIsoFormat(t: Stamp)
    ensures DateFromIsoString(IsoFormat(t)) == [ZeroPad(t.date.year, 4), ZeroPad(t.date.month, 2), ZeroPad(t.date.day, 2)]
  {
    IsoPartsFree(t);
    SplitCons(IsoDate(t), 'T', IsoTime(t));
    assert IsoFormat(t) == IsoDate(t) + ['T'] + IsoTime(t);
    assert IsoDate(t) == ZeroPad(t.date.year, 4) + ['-'] + ZeroPad(t.date.month, 2) + ['-'] + ZeroPad(t.date.day, 2);
    SplitThree(ZeroPad(t.date.year, 4), ZeroPad(t.date.month, 2), ZeroPad(t.date.day, 2), '-');
  }

  /** Seconds with an optional `.ffffff` hold no `:` and cut back to the seconds. */
  lemma FractionHead(ss: string, frac: string)
    requires IsNumeral(ss)
    requires frac == "" || (frac[0] == '.' && IsNumeral(frac[1..]))
    ensures ':' !in ss + frac
    ensures Split(ss + frac, '.')[0] == ss
  {
    NumeralHasNo(ss, ':');
    NumeralHasNo(ss, '.');
    if frac == "" {
      assert ss + frac == ss;
      SplitNoSep(ss, '.');
    } else {
      NumeralHasNo(frac[1..], ':');
      assert ss + frac == ss + ['.'] + frac[1..];
      SplitCons(ss, '.', frac[1..]);
    }
  }

  /** `HH:MM:SS` with an optional `.ffffff` reads as its three numerals. */
  lemma ClockParts(hh: string, mm: string, ss: string, frac: string)
    requires IsNumeral(hh) && IsNumeral(mm) && IsNumeral(ss)
    requires frac == "" || (frac[0] == '.' && IsNumeral(frac[1..]))
    ensures CutFractions(Split(hh + ":" + mm + ":" + ss + frac, ':')) == [hh, mm, ss]
  {
    NumeralHasNo(hh, ':');
    NumeralHasNo(mm, ':');
    NumeralHasNo(hh, '.');
    NumeralHasNo(mm, '.');
    var last := ss + frac;
    FractionHead(ss, frac);
    assert hh + ":" + mm + ":" + ss + frac == hh + [':'] + mm + [':'] + last;
    SplitThree(hh, mm, last, ':');
    SplitNoSep(hh, '.');
    SplitNoSep(mm, '.');
    CutFractionsThree(hh, mm, last);
  }

  lemma CutFractionsThree(a: string, b: string, c: string)
    ensures CutFractions([a, b, c]) == [Split(a, '.')[0], Split(b, '.')[0], Split(c, '.')[0]]
  {
  }

  /** The time of a backend timestamp reads back as its padded hour, minute and second, without the fraction. */
  lemma TimeOfIsoFormat(t: Stamp)
    ensures TimeFromIsoString(IsoFormat(t)) == Some([ZeroPad(Hour(t), 2), ZeroPad(Minute(t), 2), ZeroPad(Second(t), 2)])
  {
    IsoPartsFree(t);
    SplitCons(IsoDate(t), 'T', IsoTime(t));
    SplitNoSep(IsoTime(t), 'T');
    assert IsoFormat(t) == IsoDate(t) + ['T'] + IsoTime(t);
    assert Split(IsoFormat(t), 'T') == [IsoDate(t), IsoTime(t)];
    ZeroPadIsNumeral(Hour(t), 2);
    ZeroPadIsNumeral(Minute(t), 2);
    ZeroPadIsNumeral(Second(t), 2);
    ZeroPadIsNumeral(t.micros % 1_000_000, 6);
    ClockParts(ZeroPad(Hour(t), 2), ZeroPad(Minute(t), 2), ZeroPad(Second(t), 2), IsoFraction(t));
  }

  lemma UtcFromReads(s: string, time: seq<string>)
    requires TimeFromIsoString(s) == Some(time)
    ensures UtcFromIsoString(s) == UtcOfReads(ReadFirstThree(DateFromIsoString(s)), ReadFirstThree(time))
  {
  }

  /** Read date and time fields go to `Date.UTC`, the month less one. */
  lemma UtcOfReadsSome(y: int, m: int, d: int, h: int, mi: int, se: int)
    ensures UtcOfReads(Some([y, m, d]), Some([h, mi, se])) == DateUtc(y, m - 1, d, h, mi, se)
  {
    var date, clock := [y, m, d], [h, mi, se];
    assert date[0] == y && date[1] == m && date[2] == d;
    assert clock[0] == h && clock[1] == mi && clock[2] == se;
  }

  /** Three zero-padded numbers read back as themselves. */
  lemma ReadPaddedThree(p: nat, q: nat, r: nat, wp: nat, wq: nat, wr: nat)
    ensures ReadFirstThree([ZeroPad(p, wp), ZeroPad(q, wq), ZeroPad(r, wr)]) == Some([p, q, r])
  {
    ZeroPadIsNumeral(p, wp);
    ZeroPadIsNumeral(q, wq);
    ZeroPadIsNumeral(r, wr);
    ReadThreeNumerals(ZeroPad(p, wp), ZeroPad(q, wq), ZeroPad(r, wr));
    ParseZeroPad(p, wp);
    ParseZeroPad(q, wq);
    ParseZeroPad(r, wr);
  }

  lemma ClockSeconds(t: Stamp)
    ensures Hour(t) * 3600 + Minute(t) * 60 + Second(t) == Seconds(t) < 86400
  {
  }

  /** `Date.UTC` of a calendar date from year 100 on and a time of day in range is that instant. */
  lemma DateUtcOfDay(y: int, m: int, d: int, hh: int, mi: int, ss: int)
    requires 100 <= y <= 9999 && 1 <= m <= 12 && 1 <= d <= 31
    requires 0 <= hh * 3600 + mi * 60 + ss < 86400
    ensures DateUtc(y, m - 1, d, hh, mi, ss) == Millis(DayNumber(Date(y, m, d)) * 86_400_000 + (hh * 3600 + mi * 60 + ss) * 1000)
  {
    var dn := DayNumber(Date(y, m, d));
    var secs := hh * 3600 + mi * 60 + ss;
    MakeDayOfMonth(y, m, d);
    DayNumberBounds(Date(y, m, d));
    assert MakeDay(FullYear(y), m - 1, d) * 86_400_000 + hh * 3_600_000 + mi * 60_000 + ss * 1000 == dn * 86_400_000 + secs * 1000;
    InstantInRange(dn, secs);
  }

  lemma MakeDayOfMonth(y: int, m: int, d: int)
    requires 1 <= m <= 12
    ensures MakeDay(y, m - 1, d) == DayNumber(Date(y, m, d))
  {
    assert (m - 1) / 12 == 0 && (m - 1) % 12 == m - 1;
  }

  lemma InstantInRange(dn: int, secs: int)
    requires -1_000_000 <= dn <= 3_000_000 && 0 <= secs < 86400
    ensures -MAX_TIME <= dn * 86_400_000 + secs * 1000 <= MAX_TIME
  {
  }

  lemma DayNumberBounds(d: Date)
    requires 1 <= d.month <= 12 && 1 <= d.day <= 31 && 100 <= d.year <= 9999
    ensures -1_000_000 <= DayNumber(d) <= 3_000_000
  {
  }

  /**
   * A backend timestamp reads as the milliseconds since the epoch of its whole second,
   * taking its year `y` as `1900 + y` when `y` is below 100.
   */
  lemma UtcOfIsoFormat(t: Stamp)
    ensures UtcFromIsoString(IsoFormat(t))
      == Millis(DayNumber(Date(FullYear(t.date.year), t.date.month, t.date.day)) * 86_400_000 + Seconds(t) * 1000)
  {
    DateOfIsoFormat(t);
    TimeOfIsoFormat(t);
    UtcFromReads(IsoFormat(t), [ZeroPad(Hour(t), 2), ZeroPad(Minute(t), 2), ZeroPad(Second(t), 2)]);
    UtcOfPadded(t.date.year, t.date.month, t.date.day, Hour(t), Minute(t), Second(t));
    DateUtcOfStamp(t);
  }

  /** Zero-padded date and time fields go to `Date.UTC` as their values, the month less one. */
  lemma UtcOfPadded(y: nat, m: nat, d: nat, h: nat, mi: nat, se: nat)
    ensures UtcOfReads(ReadFirstThree([ZeroPad(y, 4), ZeroPad(m, 2), ZeroPad(d, 2)]), ReadFirstThree([ZeroPad(h, 2), ZeroPad(mi, 2), ZeroPad(se, 2)]))
      == DateUtc(y, m - 1, d, h, mi, se)
  {
    ReadPaddedThree(y, m, d, 4, 2, 2);
    ReadPaddedThree(h, mi, se, 2, 2, 2);
    UtcOfReadsSome(y, m, d, h, mi, se);
  }

  /** `Date.UTC` of a timestamp's fields is the instant of its whole second, years below 100 read as 19xx. */
  lemma DateUtcOfStamp(t: Stamp)
    ensures DateUtc(t.date.year, t.date.month - 1, t.date.day, Hour(t), Minute(t), Second(t))
      == Millis(DayNumber(Date(FullYear(t.date.year), t.date.month, t.date.day)) * 86_400_000 + Seconds(t) * 1000)
  {
    ClockSeconds(t);
    DateUtcOfDay(FullYear(t.date.year), t.date.month, t.date.day, Hour(t), Minute(t), Second(t));
  }
}
