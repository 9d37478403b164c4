/** The few JavaScript built-ins the harness relies on, as pure functions:
    `String.prototype.split` and `Array.prototype.join` with a one-character
    separator, `Number.prototype.toString()` on non-negative integers,
    `Array.prototype.includes` on strings, and `String.prototype.repeat`
    on a one-character string. */
module JsText {

  /** `parts.join(sep)`: the parts with `sep` between consecutive ones;
      an empty array joins to the empty string. */
  function Join(parts: seq<string>, sep: char): (s: string)
    ensures |parts| >= 1 ==> parts[0] <= s
  {
    if |parts| == 0 then ""
    else if |parts| == 1 then parts[0]
    else parts[0] + [sep] + Join(parts[1..], sep)
  }

  /** Joining separator-free parts puts exactly one separator between
      consecutive parts and no other. */
  lemma {:induction false} JoinSeparatorCount(parts: seq<string>, sep: char)
    requires forall i :: 0 <= i < |parts| ==> sep !in parts[i]
    ensures multiset(Join(parts, sep))[sep] == if |parts| == 0 then 0 else |parts| - 1
    decreases |parts|
  {
    if |parts| > 1 {
      JoinSeparatorCount(parts[1..], sep);
      var s := Join(parts, sep);
      assert s == parts[0] + [sep] + Join(parts[1..], sep);
      assert multiset(s) == multiset(parts[0]) + multiset([sep]) + multiset(Join(parts[1..], sep));
    }
  }

  /** `s.split(sep)` for a one-character separator: the maximal runs
      between separators, in order. There is always at least one part, so
      the empty string splits into `[""]`. */
  function Split(s: string, sep: char): (parts: seq<string>)
    decreases |s|
    ensures |parts| == multiset(s)[sep] + 1
    ensures forall i :: 0 <= i < |parts| ==> sep !in parts[i]
  {
    if |s| == 0 then [""]
    else
      assert s == [s[0]] + s[1..];
      var rest := Split(s[1..], sep);
      if s[0] == sep then [""] + rest
      else [[s[0]] + rest[0]] + rest[1..]
  }

  /** Prepending a character to the first part prepends it to the joined string. */
  lemma PrependToFirstPart(c: char, parts: seq<string>, sep: char)
    requires |parts| >= 1
    ensures Join([[c] + parts[0]] + parts[1..], sep) == [c] + Join(parts, sep)
  {
  }

  /** Putting an empty part in front puts a separator in front of the joined string. */
  lemma PrependEmptyPart(parts: seq<string>, sep: char)
    requires |parts| >= 1
    ensures Join([""] + parts, sep) == [sep] + Join(parts, sep)
  {
  }

  /** Splitting and joining again gives back the string. */
  lemma {:induction false} JoinSplit(s: string, sep: char)
    ensures Join(Split(s, sep), sep) == s
    decreases |s|
  {
    if |s| > 0 {
      var tail := s[1..];
      JoinSplit(tail, sep);
      var rest := Split(tail, sep);
      if s[0] == sep {
        PrependEmptyPart(rest, sep);
      } else {
        PrependToFirstPart(s[0], rest, sep);
      }
      assert [s[0]] + tail == s;
    }
  }

  /** A string free of the separator splits into itself alone. */
  lemma {:induction false} SplitNoSeparator(p: string, sep: char)
    requires sep !in p
    ensures Split(p, sep) == [p]
    decreases |p|
  {
    if |p| > 0 {
      SplitNoSeparator(p[1..], sep);
      assert [p[0]] + p[1..] == p;
    }
  }

  /** A separator-free prefix followed by a separator becomes the first part. */
  lemma {:induction false} SplitAfterPart(p: string, sep: char, rest: string)
    requires sep !in p
    ensures Split(p + [sep] + rest, sep) == [p] + Split(rest, sep)
    decreases |p|
  {
    var s := p + [sep] + rest;
    if |p| == 0 {
      assert s == [sep] + rest;
      assert s[1..] == rest;
    } else {
      assert s[1..] == p[1..] + [sep] + rest;
      SplitAfterPart(p[1..], sep, rest);
      assert [p[0]] + p[1..] == p;
    }
  }

  /** Joining separator-free parts and splitting again gives back the parts. */
  lemma {:induction false} SplitJoin(parts: seq<string>, sep: char)
    requires |parts| >= 1
    requires forall i :: 0 <= i < |parts| ==> sep !in parts[i]
    ensures Split(Join(parts, sep), sep) == parts
    decreases |parts|
  {
    if |parts| == 1 {
      SplitNoSeparator(parts[0], sep);
    } else {
      SplitJoin(parts[1..], sep);
      SplitAfterPart(parts[0], sep, Join(parts[1..], sep));
      assert [parts[0]] + parts[1..] == parts;
    }
  }

  /** `tags.includes(x)` on an array of strings: a left-to-right search
      comparing whole elements for equality. */
  function Includes(tags: seq<string>, x: string): (found: bool)
    ensures found <==> x in tags
  {
    if |tags| == 0 then false
    else tags[0] == x || Includes(tags[1..], x)
  }

  function DigitChar(d: nat): (c: char)
    requires d < 10
    ensures '0' <= c <= '9'
  {
    "0123456789"[d]
  }

  predicate IsDigits(s: string)
  {
    forall i :: 0 <= i < |s| ==> '0' <= s[i] <= '9'
  }

  /** `n.toString()` for a non-negative integer below 10^21 (JavaScript
      switches to exponent notation from there on): its decimal numeral,
      without leading zeros. */
  function NumberToString(n: nat): (s: string)
    decreases n
    ensures |s| >= 1 && IsDigits(s)
    ensures |s| > 1 ==> s[0] != '0'
  {
    if n < 10 then [DigitChar(n)]
    else NumberToString(n / 10) + [DigitChar(n % 10)]
  }

  /** The value of a decimal numeral (the partner of `NumberToString`). */
  function DecimalValue(s: string): nat
    requires IsDigits(s)
  {
    if |s| == 0 then 0
    else DecimalValue(s[..|s| - 1]) * 10 + ((s[|s| - 1] as int) - ('0' as int))
  }

  /** Reading the numeral back gives the number. */
  lemma {:induction false} DecimalValueOfNumberToString(n: nat)
    ensures DecimalValue(NumberToString(n)) == n
    decreases n
  {
    var s := NumberToString(n);
    if n >= 10 {
      DecimalValueOfNumberToString(n / 10);
      assert s[..|s| - 1] == NumberToString(n / 10);
      assert s[|s| - 1] == DigitChar(n % 10);
      assert (DigitChar(n % 10) as int) - ('0' as int) == n % 10;
    } else {
      assert (DigitChar(n) as int) - ('0' as int) == n;
    }
  }

  /** Different numbers have different numerals. */
  lemma NumberToStringInjective(m: nat, n: nat)
    requires m != n
    ensures NumberToString(m) != NumberToString(n)
  {
    DecimalValueOfNumberToString(m);
    DecimalValueOfNumberToString(n);
  }

  /** `"9".repeat(n)`. */
  function Nines(n: nat): (s: string)
    ensures |s| == n && forall i :: 0 <= i < n ==> s[i] == '9'
  {
    seq(n, _ => '9')
  }
}
