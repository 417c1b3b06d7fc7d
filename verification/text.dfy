/**
 * The few Python string operations the bot's parsers rely on:
 * `str.strip()`, `str.lstrip(chars)`, `str.lower()`, `str.split(sep)`,
 * `int(str)` and the `{:02d}` format.
 */
module Text {
  import opened Types

  /** Python's `str.isspace()`: the characters `str.strip()` removes. */
  predicate IsSpace(c: char)
  {
    var n := c as int;
    (9 <= n <= 13) || (28 <= n <= 32) || n == 0x85 || n == 0xA0 || n == 0x1680
    || (0x2000 <= n <= 0x200A) || n == 0x2028 || n == 0x2029 || n == 0x202F
    || n == 0x205F || n == 0x3000
  }

  predicate IsDigit(c: char)
  {
    '0' <= c <= '9'
  }

  /** The characters a strip removes: whitespace for `strip()`, `#` for `lstrip('#')`. */
  datatype Strippable = Whitespace | Hashes

  predicate Drops(k: Strippable, c: char)
  {
    match k
    case Whitespace => IsSpace(c)
    case Hashes => c == '#'
  }

  /** Drops the longest prefix of characters of class `k`. */
  function TrimLeft(s: string, k: Strippable): string
    decreases |s|
  {
    if |s| > 0 && Drops(k, s[0]) then TrimLeft(s[1..], k) else s
  }

  /** Drops the longest suffix of characters of class `k`. */
  function TrimRight(s: string, k: Strippable): string
    decreases |s|
  {
    if |s| > 0 && Drops(k, s[|s| - 1]) then TrimRight(s[..|s| - 1], k) else s
  }

  /** What `TrimLeft` removes is a prefix of class `k`, and what it keeps starts outside it. */
  lemma {:induction false} TrimLeftSplits(s: string, k: Strippable)
    ensures var r := TrimLeft(s, k);
      && |r| <= |s| && r == s[|s| - |r|..]
      && (forall i :: 0 <= i < |s| - |r| ==> Drops(k, s[i]))
      && (r == [] || !Drops(k, r[0]))
    decreases |s|
  {
    if |s| > 0 && Drops(k, s[0]) {
      TrimLeftSplits(s[1..], k);
    }
  }

  /** What `TrimRight` removes is a suffix of class `k`, and what it keeps ends outside it. */
  lemma {:induction false} TrimRightSplits(s: string, k: Strippable)
    ensures var r := TrimRight(s, k);
      && |r| <= |s| && r == s[..|r|]
      && (forall i :: |r| <= i < |s| ==> Drops(k, s[i]))
      && (r == [] || !Drops(k, r[|r| - 1]))
    decreases |s|
  {
    if |s| > 0 && Drops(k, s[|s| - 1]) {
      TrimRightSplits(s[..|s| - 1], k);
    }
  }

  /** `s.strip()` */
  function Strip(s: string): string
  {
    TrimRight(TrimLeft(s, Whitespace), Whitespace)
  }

  /** `s.lstrip('#')` */
  function StripHashes(s: string): string
  {
    TrimLeft(s, Hashes)
  }

  function LowerChar(c: char): char
  {
    if 'A' <= c <= 'Z' then (c as int + 32) as char else c
  }

  /**
   * `s.lower()` on the ASCII letters. Python also lowers other scripts;
   * of those only U+0130 and U+212A lower into ASCII ("i" and "k").
   */
  function Lower(s: string): (r: string)
    ensures |r| == |s|
  {
    seq(|s|, i requires 0 <= i < |s| => LowerChar(s[i]))
  }

  /** Number of occurrences of `c` in `s`. */
  function Count(s: string, c: char): nat
  {
    if |s| == 0 then 0 else (if s[0] == c then 1 else 0) + Count(s[1..], c)
  }

  lemma {:induction false} CountAbsent(s: string, c: char)
    requires c !in s
    ensures Count(s, c) == 0
  {
    if |s| > 0 {
      assert s[0] != c;
      assert c !in s[1..];
      CountAbsent(s[1..], c);
    }
  }

  /** `sep.join(parts)` */
  function Join(parts: seq<string>, sep: char): string
    requires |parts| >= 1
  {
    if |parts| == 1 then parts[0] else parts[0] + [sep] + Join(parts[1..], sep)
  }

  /**
   * `s.split(sep)` for a one-character separator: the pieces between the
   * separators, so `Join` puts them back together, and there is one more
   * piece than there are separators.
   */
  function Split(s: string, sep: char): (parts: seq<string>)
    ensures |parts| == Count(s, sep) + 1
    ensures Join(parts, sep) == s
    ensures forall k :: 0 <= k < |parts| ==> sep !in parts[k]
    decreases |s|
  {
    if |s| == 0 then [""]
    else
      var rest := Split(s[1..], sep);
      if s[0] == sep then
        assert s == [sep] + s[1..];
        [""] + rest
      else
        var parts := [[s[0]] + rest[0]] + rest[1..];
        assert s == [s[0]] + s[1..];
        assert forall k :: 1 <= k < |parts| ==> parts[k] == rest[k];
        assert |rest| > 1 ==> Join(rest, sep) == rest[0] + [sep] + Join(rest[1..], sep);
        assert |rest| > 1 ==> rest[1..] == parts[1..];
        parts
  }

  function DigitValue(c: char): nat
    requires IsDigit(c)
  {
    c as int - '0' as int
  }

  predicate AllDigits(s: string)
  {
    forall i :: 0 <= i < |s| ==> IsDigit(s[i])
  }

  /** The value of a string of decimal digits. */
  function DigitsValue(s: string): nat
    requires AllDigits(s)
  {
    if |s| == 0 then 0 else 10 * DigitsValue(s[..|s| - 1]) + DigitValue(s[|s| - 1])
  }

  /**
   * `int(s)`: surrounding whitespace, an optional sign, then one or more
   * ASCII digits; anything else is the `ValueError` case, `None`.
   */
  function ParseInt(s: string): (r: Option<int>)
  {
    var t := Strip(s);
    if |t| > 1 && (t[0] == '+' || t[0] == '-') && AllDigits(t[1..]) then
      var v: int := DigitsValue(t[1..]);
      Some(if t[0] == '-' then -v else v)
    else if |t| > 0 && AllDigits(t) then
      Some(DigitsValue(t))
    else
      None
  }

  function Digit(d: nat): (c: char)
    requires d < 10
    ensures IsDigit(c) && DigitValue(c) == d
  {
    ('0' as int + d) as char
  }

  /** `f"{n:02d}"` for a number below 100. */
  function Pad2(n: nat): (r: string)
    requires n < 100
    ensures |r| == 2 && AllDigits(r)
  {
    [Digit(n / 10), Digit(n % 10)]
  }

  /** `int()` reads a zero-padded number back as the number. */
  lemma ParseIntPad2(n: nat)
    requires n < 100
    ensures ParseInt(Pad2(n)) == Some(n)
  {
    var p := Pad2(n);
    assert !IsSpace(p[0]) && !IsSpace(p[1]);
    assert TrimLeft(p, Whitespace) == p;
    assert Strip(p) == p;
    assert p[..1] == [p[0]];
    assert DigitsValue(p[..1]) == DigitValue(p[0]);
  }
}
