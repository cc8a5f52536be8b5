/** String semantics shared by the Python and Java parts of the pipeline:
    lower-casing, character replacement, Python `strip` and Java `trim`,
    Python `split` (keeps every empty field) and Java `split` (drops trailing
    empty fields), joining, slicing, decimal rendering and Java's
    `Integer.parseInt`. */
module Text {
  import opened Wrappers

  // ---------------------------------------------------------------------------
  // Characters and case

  /** Lower-case mapping of one character: ASCII capitals and the Latin-1
      capitals (U+00C0..U+00DE except the multiplication sign). */
  function LowerChar(c: char): char {
    if 'A' <= c <= 'Z' || ('\U{C0}' <= c <= '\U{DE}' && c != '\U{D7}') then (c as int + 32) as char else c
  }

  /** Python `str.lower()` / Java `String.toLowerCase()`, character by character. */
  function Lower(s: string): (r: string)
    ensures |r| == |s|
  {
    if s == [] then [] else [LowerChar(s[0])] + Lower(s[1..])
  }

  /** Lower-casing maps each character on its own. */
  lemma {:induction false} LowerAt(s: string)
    ensures forall i :: 0 <= i < |s| ==> Lower(s)[i] == LowerChar(s[i])
    decreases |s|
  {
    if s != [] {
      LowerAt(s[1..]);
    }
  }

  lemma LowerIdempotent(s: string)
    ensures Lower(Lower(s)) == Lower(s)
  {
    LowerAt(s);
    LowerAt(Lower(s));
  }

  lemma LowerConcat(a: string, b: string)
    ensures Lower(a + b) == Lower(a) + Lower(b)
  {
    LowerAt(a);
    LowerAt(b);
    LowerAt(a + b);
    assert forall i :: 0 <= i < |a + b| ==> Lower(a + b)[i] == (Lower(a) + Lower(b))[i];
  }

  /** Python `s.replace(x, y)` for one-character `x` and `y`. */
  function ReplaceChar(s: string, x: char, y: char): (r: string)
    ensures |r| == |s|
    ensures forall i :: 0 <= i < |s| ==> r[i] == (if s[i] == x then y else s[i])
  {
    if s == [] then [] else [if s[0] == x then y else s[0]] + ReplaceChar(s[1..], x, y)
  }

  predicate StartsWith(s: string, prefix: string) {
    |prefix| <= |s| && s[..|prefix|] == prefix
  }

  // ---------------------------------------------------------------------------
  // Trimming

  /** The characters Python's `str.strip()` removes (`str.isspace`). */
  predicate IsPyWhitespace(c: char) {
    c == ' ' || '\t' <= c <= '\r' || '\U{1C}' <= c <= '\U{1F}' || c == '\U{85}' || c == '\U{A0}'
    || c == '\U{1680}' || '\U{2000}' <= c <= '\U{200A}' || c == '\U{2028}' || c == '\U{2029}'
    || c == '\U{202F}' || c == '\U{205F}' || c == '\U{3000}'
  }

  /** The characters Java's `String.trim()` removes: every code point up to U+0020. */
  predicate IsJavaTrimmable(c: char) {
    c <= ' '
  }

  function PyStripStart(s: string): string {
    if s == [] || !IsPyWhitespace(s[0]) then s else PyStripStart(s[1..])
  }

  function PyStripEnd(s: string): string {
    if s == [] || !IsPyWhitespace(s[|s| - 1]) then s else PyStripEnd(s[..|s| - 1])
  }

  /** Python `str.strip()`. */
  function PyStrip(s: string): string {
    PyStripEnd(PyStripStart(s))
  }

  function JavaTrimStart(s: string): string {
    if s == [] || !IsJavaTrimmable(s[0]) then s else JavaTrimStart(s[1..])
  }

  function JavaTrimEnd(s: string): string {
    if s == [] || !IsJavaTrimmable(s[|s| - 1]) then s else JavaTrimEnd(s[..|s| - 1])
  }

  /** Java `String.trim()`. */
  function JavaTrim(s: string): string {
    JavaTrimEnd(JavaTrimStart(s))
  }

  /** Python slice `s[a:b]` for non-negative bounds: both are clamped to the
      length, and an empty string results when `a >= b`. */
  function PySlice(s: string, a: nat, b: nat): (r: string)
    ensures |r| <= |s|
  {
    var lo := if a <= |s| then a else |s|;
    var hi := if b <= |s| then b else |s|;
    if lo <= hi then s[lo..hi] else ""
  }

  // ---------------------------------------------------------------------------
  // Splitting and joining on one character

  /** Index of the first `c` in `s`, or `|s|` when there is none. */
  function IndexOf(s: string, c: char): (k: nat)
    ensures k <= |s|
    ensures k < |s| ==> s[k] == c
    ensures forall i :: 0 <= i < k ==> s[i] != c
  {
    if s == [] then 0 else if s[0] == c then 0 else 1 + IndexOf(s[1..], c)
  }

  /** Python `s.split(c)`: every field, empty ones included; never empty. */
  function Split(s: string, c: char): (r: seq<string>)
    ensures |r| >= 1
    decreases |s|
  {
    var k := IndexOf(s, c);
    if k == |s| then [s] else [s[..k]] + Split(s[k + 1..], c)
  }

  function Join(parts: seq<string>, sep: string): string {
    if parts == [] then "" else if |parts| == 1 then parts[0] else parts[0] + sep + Join(parts[1..], sep)
  }

  function DropTrailingEmpty(parts: seq<string>): (r: seq<string>)
    ensures |r| <= |parts| && r == parts[..|r|]
    ensures r == [] || r[|r| - 1] != ""
  {
    if parts == [] || parts[|parts| - 1] != "" then parts else DropTrailingEmpty(parts[..|parts| - 1])
  }

  /** Java `s.split(c)` for a one-character literal: a string without `c` gives
      itself; otherwise the fields, with trailing empty fields removed. */
  function JavaSplit(s: string, c: char): seq<string> {
    if c !in s then [s] else DropTrailingEmpty(Split(s, c))
  }

  lemma {:induction false} SplitJoin(s: string, c: char)
    ensures Join(Split(s, c), [c]) == s
    decreases |s|
  {
    var k := IndexOf(s, c);
    if k < |s| {
      var head := s[..k];
      var tail := s[k + 1..];
      SplitJoin(tail, c);
      SplitAt(s, c);
      JoinCons(head, Split(tail, c), [c]);
      assert s == head + [c] + tail;
    }
  }

  /** Splitting at the first separator. */
  lemma SplitAt(s: string, c: char)
    requires IndexOf(s, c) < |s|
    ensures Split(s, c) == [s[..IndexOf(s, c)]] + Split(s[IndexOf(s, c) + 1..], c)
  {
  }

  lemma SeqAssoc<T>(x: seq<T>, y: seq<T>, z: seq<T>)
    ensures x + (y + z) == (x + y) + z
  {
  }

  /** A non-empty sequence is its front and its last element. */
  lemma SnocLast<T>(s: seq<T>)
    requires s != []
    ensures s == s[..|s| - 1] + [s[|s| - 1]]
  {
  }

  /** A sequence is its prefix and the rest. */
  lemma PrefixSuffix<T>(s: seq<T>, k: nat)
    requires k <= |s|
    ensures s[..k] + s[k..] == s
    ensures s[..|s|] == s
  {
  }

  /** The prefix of one more element, without that element. */
  lemma PrefixSnoc<T>(s: seq<T>, i: nat)
    requires i < |s|
    ensures s[..i + 1] == s[..i] + [s[i]]
    ensures s[..i + 1][..i] == s[..i]
  {
  }

  /** A prefix of a prefix is a prefix. */
  lemma PrefixTrans<T>(a: seq<T>, b: seq<T>, c: seq<T>)
    requires |b| <= |a| && a[..|b|] == b
    requires |c| <= |b| && b[..|c|] == c
    ensures a[..|c|] == c
  {
    assert a[..|c|] == a[..|b|][..|c|];
  }

  /** Joining a field in front of at least one more field. */
  lemma JoinCons(x: string, rest: seq<string>, sep: string)
    requires rest != []
    ensures Join([x] + rest, sep) == x + sep + Join(rest, sep)
  {
    assert ([x] + rest)[1..] == rest;
  }

  lemma {:induction false} SplitNoSeparator(s: string, c: char)
    requires c !in s
    ensures Split(s, c) == [s]
  {
    assert forall i :: 0 <= i < |s| ==> s[i] != c;
  }

  lemma {:induction false} SplitConcat(a: string, c: char, b: string)
    ensures Split(a + [c] + b, c) == Split(a, c) + Split(b, c)
    decreases |a|
  {
    var s := a + [c] + b;
    var ka := IndexOf(a, c);
    if ka == |a| {
      IndexOfPastPrefix(a, c, b);
      SplitAt(s, c);
      assert s[..|a|] == a;
      assert s[|a| + 1..] == b;
    } else {
      assert s == a + ([c] + b);
      IndexOfInPrefix(a, c, [c] + b);
      SplitAt(s, c);
      SplitAt(a, c);
      var a2 := a[ka + 1..];
      var head := [a[..ka]];
      assert s[..ka] == a[..ka];
      assert s[ka + 1..] == a2 + [c] + b;
      assert Split(s, c) == head + Split(a2 + [c] + b, c);
      assert Split(a, c) == head + Split(a2, c);
      SplitConcat(a2, c, b);
      SeqAssoc(head, Split(a2, c), Split(b, c));
    }
  }

  lemma {:induction false} IndexOfPastPrefix(a: string, c: char, b: string)
    requires IndexOf(a, c) == |a|
    ensures IndexOf(a + [c] + b, c) == |a|
  {
    var s := a + [c] + b;
    assert s[|a|] == c;
    assert forall i :: 0 <= i < |a| ==> s[i] == a[i];
  }

  lemma {:induction false} IndexOfInPrefix(a: string, c: char, b: string)
    requires IndexOf(a, c) < |a|
    ensures IndexOf(a + b, c) == IndexOf(a, c)
  {
    var s := a + b;
    var ka := IndexOf(a, c);
    assert s[ka] == c;
    assert forall i :: 0 <= i < |a| ==> s[i] == a[i];
  }

  /** Splitting a join of separator-free fields gives the fields back. */
  lemma {:induction false} JoinSplit(parts: seq<string>, c: char)
    requires |parts| >= 1
    requires forall i :: 0 <= i < |parts| ==> c !in parts[i]
    ensures Split(Join(parts, [c]), c) == parts
  {
    if |parts| == 1 {
      SplitNoSeparator(parts[0], c);
    } else {
      JoinSplit(parts[1..], c);
      SplitNoSeparator(parts[0], c);
      SplitConcat(parts[0], c, Join(parts[1..], [c]));
    }
  }

  /** Every field of a split is free of the separator. */
  lemma {:induction false} SplitFieldsFree(s: string, c: char)
    ensures forall i :: 0 <= i < |Split(s, c)| ==> c !in Split(s, c)[i]
    decreases |s|
  {
    var k := IndexOf(s, c);
    if k < |s| {
      SplitFieldsFree(s[k + 1..], c);
      assert forall i :: 0 <= i < |s[..k]| ==> s[..k][i] != c;
    } else {
      assert forall i :: 0 <= i < |s| ==> s[i] != c;
    }
  }

  /** Java's split of a join of separator-free fields gives the fields back,
      provided the last field is not empty (or is the only one). */
  lemma JavaSplitJoin(parts: seq<string>, c: char)
    requires |parts| >= 1
    requires forall i :: 0 <= i < |parts| ==> c !in parts[i]
    requires |parts| == 1 || parts[|parts| - 1] != ""
    ensures JavaSplit(Join(parts, [c]), c) == parts
  {
    if |parts| > 1 {
      JoinHasSeparator(parts, c);
      JoinSplit(parts, c);
      JavaSplitKeepsFields(Join(parts, [c]), c, parts);
    } else {
      assert Join(parts, [c]) == parts[0];
    }
  }

  lemma JavaSplitKeepsFields(s: string, c: char, parts: seq<string>)
    requires c in s && Split(s, c) == parts
    requires parts != [] && parts[|parts| - 1] != ""
    ensures JavaSplit(s, c) == parts
  {
  }

  lemma JoinHasSeparator(parts: seq<string>, c: char)
    requires |parts| > 1
    ensures c in Join(parts, [c])
  {
    assert parts == [parts[0]] + parts[1..];
    JoinCons(parts[0], parts[1..], [c]);
    assert Join(parts, [c])[|parts[0]|] == c;
  }

  /** Joining one more field appends the separator and the field. */
  lemma {:induction false} JoinSnoc(parts: seq<string>, x: string, sep: string)
    requires parts != []
    ensures Join(parts + [x], sep) == Join(parts, sep) + sep + x
    decreases |parts|
  {
    if |parts| > 1 {
      assert (parts + [x])[1..] == parts[1..] + [x];
      JoinSnoc(parts[1..], x, sep);
    }
  }

  /** Java `s.replace(c, "")` for a one-character target: every occurrence removed. */
  function RemoveChar(s: string, c: char): (r: string)
    ensures c !in r
    ensures forall x :: x in r ==> x in s
    ensures c !in s ==> r == s
  {
    if s == [] then "" else if s[0] == c then RemoveChar(s[1..], c) else [s[0]] + RemoveChar(s[1..], c)
  }

  lemma {:induction false} RemoveCharConcat(a: string, b: string, c: char)
    ensures RemoveChar(a + b, c) == RemoveChar(a, c) + RemoveChar(b, c)
    decreases |a|
  {
    if a == [] {
      assert a + b == b;
    } else {
      assert (a + b)[1..] == a[1..] + b;
      RemoveCharConcat(a[1..], b, c);
    }
  }

  // ---------------------------------------------------------------------------
  // Decimal numbers

  const MinInt32: int := -0x8000_0000
  const MaxInt32: int := 0x7FFF_FFFF

  predicate IsDigit(c: char) {
    '0' <= c <= '9'
  }

  predicate IsDigits(s: string) {
    |s| > 0 && forall i :: 0 <= i < |s| ==> IsDigit(s[i])
  }

  function DigitValue(c: char): nat
    requires IsDigit(c)
  {
    c as int - '0' as int
  }

  function DigitsValue(s: string): nat
    requires forall i :: 0 <= i < |s| ==> IsDigit(s[i])
  {
    if s == [] then 0 else 10 * DigitsValue(s[..|s| - 1]) + DigitValue(s[|s| - 1])
  }

  /** Python `str(n)` and Java's decimal rendering of a non-negative number. */
  function NatToString(n: nat): (r: string)
    ensures IsDigits(r)
  {
    var d := [('0' as int + n % 10) as char];
    if n < 10 then d else NatToString(n / 10) + d
  }

  /** Java's decimal rendering of an `int` (`String.valueOf`, `%s`, `%d`). */
  function IntToString(i: int): string {
    if i < 0 then "-" + NatToString(-i) else NatToString(i)
  }

  lemma {:induction false} NatToStringValue(n: nat)
    ensures DigitsValue(NatToString(n)) == n
  {
    var s := NatToString(n);
    if n >= 10 {
      NatToStringValue(n / 10);
      assert s[..|s| - 1] == NatToString(n / 10);
    }
  }

  lemma DigitsHaveNo(s: string, c: char)
    requires IsDigits(s)
    requires !IsDigit(c)
    ensures c !in s
  {
    assert forall i :: 0 <= i < |s| ==> s[i] != c;
  }

  lemma IntToStringHasNo(i: int, c: char)
    requires !IsDigit(c) && c != '-'
    ensures c !in IntToString(i)
  {
    if i < 0 {
      DigitsHaveNo(NatToString(-i), c);
      assert IntToString(i) == "-" + NatToString(-i);
    } else {
      DigitsHaveNo(NatToString(i), c);
    }
  }

  /** Java `Integer.parseInt`: an optional sign followed by at least one decimal
      digit, within the 32-bit range; anything else is a NumberFormatException. */
  function JavaParseInt(s: string): (r: Result<int>)
    ensures r.Ok? ==> MinInt32 <= r.value <= MaxInt32
    ensures !IsDigits(s) && !(|s| > 0 && (s[0] == '+' || s[0] == '-')) ==> r.Err?
  {
    if s == [] then Err(NumberFormat(s))
    else
      var signed := s[0] == '+' || s[0] == '-';
      var digits := if signed then s[1..] else s;
      if !IsDigits(digits) then Err(NumberFormat(s))
      else
        var v: int := if s[0] == '-' then -(DigitsValue(digits) as int) else DigitsValue(digits);
        if MinInt32 <= v <= MaxInt32 then Ok(v) else Err(NumberFormat(s))
  }

  /** Parsing the rendering of any 32-bit integer gives the integer back. */
  lemma ParseIntRoundTrip(i: int)
    requires MinInt32 <= i <= MaxInt32
    ensures JavaParseInt(IntToString(i)) == Ok(i)
  {
    var s := IntToString(i);
    if i < 0 {
      NatToStringValue(-i);
      assert s[1..] == NatToString(-i);
    } else {
      NatToStringValue(i);
    }
  }
}
