/** Text helpers shared by the spelling model: an Option type, ASCII case
    mapping, suffix and prefix tests, joining, searching for a character and
    rendering a natural number in decimal. */
module Strings {

  datatype Option<T> = None | Some(value: T)

  predicate IsAsciiLower(c: char) { 'a' <= c <= 'z' }

  predicate IsAsciiUpper(c: char) { 'A' <= c <= 'Z' }

  /** The upper-case form of one character (ASCII letters only). */
  function UpperChar(c: char): (u: char)
    ensures !IsAsciiLower(u)
    ensures u == c <==> !IsAsciiLower(c)
  {
    if IsAsciiLower(c) then (c as int - 32) as char else c
  }

  /** The lower-case form of one character (ASCII letters only). */
  function LowerChar(c: char): (l: char)
    ensures !IsAsciiUpper(l)
    ensures l == c <==> !IsAsciiUpper(c)
  {
    if IsAsciiUpper(c) then (c as int + 32) as char else c
  }

  /** `s.upper()`, character by character. */
  function ToUpper(s: string): (r: string)
    ensures |r| == |s|
  {
    seq(|s|, i requires 0 <= i < |s| => UpperChar(s[i]))
  }

  /** `s.lower()`, character by character. */
  function ToLower(s: string): (r: string)
    ensures |r| == |s|
  {
    seq(|s|, i requires 0 <= i < |s| => LowerChar(s[i]))
  }

  /** Lower-casing works character by character, so it distributes over `+`. */
  lemma ToLowerConcat(a: string, b: string)
    ensures ToLower(a + b) == ToLower(a) + ToLower(b)
  {
    assert forall i :: 0 <= i < |a + b| ==>
      ToLower(a + b)[i] == (ToLower(a) + ToLower(b))[i];
  }

  /** No character of `s` is a lower-case letter. */
  predicate NoLower(s: string)
  {
    forall i :: 0 <= i < |s| ==> !IsAsciiLower(s[i])
  }

  /** A string equals its upper-case form exactly when it has no lower-case letter. */
  lemma UpperFixedIff(s: string)
    ensures ToUpper(s) == s <==> NoLower(s)
  {
    if ToUpper(s) == s {
      forall i | 0 <= i < |s| ensures !IsAsciiLower(s[i]) {
        assert ToUpper(s)[i] == UpperChar(s[i]);
      }
    }
  }

  predicate EndsWith(s: string, suffix: string)
  {
    |suffix| <= |s| && s[|s| - |suffix|..] == suffix
  }

  predicate IsPrefix(p: string, s: string)
  {
    |p| <= |s| && s[..|p|] == p
  }

  /** `sep.join(parts)`. */
  function Join(sep: string, parts: seq<string>): string
  {
    if |parts| == 0 then ""
    else if |parts| == 1 then parts[0]
    else parts[0] + sep + Join(sep, parts[1..])
  }

  /** A character in neither the separator nor any part is not in the joined string. */
  lemma {:induction false} JoinAvoids(sep: string, parts: seq<string>, c: char)
    requires c !in sep
    requires forall k :: 0 <= k < |parts| ==> c !in parts[k]
    ensures c !in Join(sep, parts)
  {
    if |parts| > 1 {
      JoinAvoids(sep, parts[1..], c);
      assert c !in parts[0];
    } else if |parts| == 1 {
      assert c !in parts[0];
    }
  }

  /** The index of the first occurrence of `c` in `s`, or `|s|` when there is none. */
  function IndexOf(s: string, c: char): (k: nat)
    ensures k <= |s|
    ensures k < |s| ==> s[k] == c
    ensures forall j :: 0 <= j < k ==> s[j] != c
  {
    if s == [] then 0
    else if s[0] == c then 0
    else 1 + IndexOf(s[1..], c)
  }

  /** The first `c` of `x + [c] + y` is the one after `x` when `x` has none. */
  lemma IndexOfAfter(x: string, c: char, y: string)
    requires c !in x
    ensures IndexOf(x + [c] + y, c) == |x|
  {
    var s := x + [c] + y;
    var k := IndexOf(s, c);
    assert s[|x|] == c;
    assert forall j :: 0 <= j < |x| ==> s[j] == x[j];
  }

  function DigitChar(d: nat): (c: char)
    requires d < 10
    ensures '0' <= c <= '9'
  {
    ('0' as int + d) as char
  }

  predicate AllDigits(s: string)
  {
    forall i :: 0 <= i < |s| ==> '0' <= s[i] <= '9'
  }

  /** Python's `'%s' % n` for a non-negative integer: its decimal digits. */
  function NatToString(n: nat): (s: string)
    ensures |s| > 0 && AllDigits(s)
    ensures s[0] == '0' <==> n == 0
    ensures s[0] == '0' ==> |s| == 1
  {
    if n < 10 then [DigitChar(n)] else NatToString(n / 10) + [DigitChar(n % 10)]
  }

  /** The number a string of decimal digits denotes. */
  function DecimalValue(s: string): nat
    requires AllDigits(s)
  {
    if s == [] then 0
    else 10 * DecimalValue(s[..|s| - 1]) + (s[|s| - 1] as int - '0' as int)
  }

  /** Reading back the decimal rendering of `n` gives `n`. */
  lemma {:induction false} DecimalRoundTrip(n: nat)
    ensures DecimalValue(NatToString(n)) == n
  {
    var s := NatToString(n);
    if n >= 10 {
      DecimalRoundTrip(n / 10);
      assert s[..|s| - 1] == NatToString(n / 10);
    }
  }
}
