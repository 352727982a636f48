/** The text primitives the line format is built from: Go's `%d` rendering of
    integers, joining with a separator, and the reader-side inverses (splitting
    a line at single spaces and parsing a decimal field back) that pin down what
    a written line means. */
module Text {
  import opened Common

  predicate IsDigit(c: char) {
    '0' <= c <= '9'
  }

  predicate AllDigits(s: string) {
    forall i | 0 <= i < |s| :: IsDigit(s[i])
  }

  function DigitChar(d: int): (c: char)
    requires 0 <= d < 10
    ensures IsDigit(c) && c as int - '0' as int == d
  {
    ('0' as int + d) as char
  }

  /** `%d` of a non-negative integer: decimal digits, no leading zero. */
  function FormatUint(n: nat): (s: string)
    ensures 1 <= |s| && AllDigits(s)
    ensures |s| > 1 ==> s[0] != '0'
    decreases n
  {
    if n < 10 then [DigitChar(n)] else FormatUint(n / 10) + [DigitChar(n % 10)]
  }

  /** `%d` of a signed integer: a leading '-' for negative values. */
  function FormatInt(x: int): (s: string)
    ensures 1 <= |s| && SpaceFree(s)
  {
    if x < 0 then "-" + FormatUint(-x) else FormatUint(x)
  }

  /** The value of a string of decimal digits, most significant first. */
  function DigitsValue(s: string): nat
    requires AllDigits(s)
    decreases |s|
  {
    if s == [] then 0
    else DigitsValue(s[..|s| - 1]) * 10 + (s[|s| - 1] as int - '0' as int)
  }

  /** Reads an unsigned decimal field; anything that is not a non-empty run of
      digits is rejected. */
  function ParseUint(s: string): (r: Option<nat>)
    ensures r.Some? <==> s != [] && AllDigits(s)
  {
    if s != [] && AllDigits(s) then Some(DigitsValue(s)) else None
  }

  /** Reads a signed decimal field with an optional leading '-'. */
  function ParseInt(s: string): Option<int> {
    if |s| > 0 && s[0] == '-' then
      match ParseUint(s[1..])
      case Some(n) => Some(-(n as int))
      case None => None
    else
      match ParseUint(s)
      case Some(n) => Some(n)
      case None => None
  }

  lemma {:induction false} DigitsValueFormat(n: nat)
    ensures DigitsValue(FormatUint(n)) == n
    decreases n
  {
    if n >= 10 {
      var s := FormatUint(n);
      assert s[..|s| - 1] == FormatUint(n / 10);
      DigitsValueFormat(n / 10);
    }
  }

  /** Reading back what `%d` wrote gives the number that was written. */
  lemma ParseFormatUint(n: nat)
    ensures ParseUint(FormatUint(n)) == Some(n)
  {
    DigitsValueFormat(n);
  }

  lemma ParseFormatInt(x: int)
    ensures ParseInt(FormatInt(x)) == Some(x)
  {
    if x < 0 {
      var s := FormatInt(x);
      assert s[1..] == FormatUint(-x);
      ParseFormatUint(-x);
    } else {
      ParseFormatUint(x);
    }
  }

  /** `strings.Join(parts, sep)`: it starts with the first part. */
  function Join(parts: seq<string>, sep: string): (s: string)
    ensures |parts| >= 1 ==> parts[0] <= s
    decreases |parts|
  {
    if parts == [] then ""
    else if |parts| == 1 then parts[0]
    else parts[0] + sep + Join(parts[1..], sep)
  }

  /** Splits at every single space, keeping empty fields (as `strings.Split`
      with separator " " does). */
  function Split(s: string): (r: seq<string>)
    ensures |r| >= 1
    decreases |s|
  {
    if s == [] then [""]
    else if s[0] == ' ' then [""] + Split(s[1..])
    else
      var rest := Split(s[1..]);
      [[s[0]] + rest[0]] + rest[1..]
  }

  lemma {:induction false} SplitSpaceFree(a: string)
    requires SpaceFree(a)
    ensures Split(a) == [a]
    decreases |a|
  {
    if a != [] {
      SplitSpaceFree(a[1..]);
      assert [a[0]] + a[1..] == a;
    }
  }

  lemma {:induction false} SplitFirstField(a: string, b: string)
    requires SpaceFree(a)
    ensures Split(a + " " + b) == [a] + Split(b)
    decreases |a|
  {
    var s := a + " " + b;
    if a == [] {
      assert s[1..] == b;
    } else {
      assert s[1..] == a[1..] + " " + b;
      SplitFirstField(a[1..], b);
      assert [a[0]] + a[1..] == a;
    }
  }

  /** Splitting a space-joined list of space-free fields gives the fields back. */
  lemma {:induction false} SplitJoin(parts: seq<string>)
    requires |parts| >= 1
    requires forall i | 0 <= i < |parts| :: SpaceFree(parts[i])
    ensures Split(Join(parts, " ")) == parts
    decreases |parts|
  {
    if |parts| == 1 {
      SplitSpaceFree(parts[0]);
    } else {
      SplitFirstField(parts[0], Join(parts[1..], " "));
      SplitJoin(parts[1..]);
    }
  }
}
