/** String helpers that the application reaches through JavaScript built-ins:
    `startsWith`, `includes`, `split(' ')[0]`, ASCII `toLowerCase`, `join`,
    the regular-expression classes `\w` and `\s`, and `toFixed(2)` on a
    threshold held in hundredths. */
module Text {

  /** `s.startsWith(p)`. */
  predicate StartsWith(s: string, p: string) {
    |p| <= |s| && s[..|p|] == p
  }

  /** A prefix matches character by character. */
  lemma StartsWithPointwise(s: string, p: string)
    ensures StartsWith(s, p) <==> |p| <= |s| && forall i :: 0 <= i < |p| ==> s[i] == p[i]
  {
    if |p| <= |s| && forall i :: 0 <= i < |p| ==> s[i] == p[i] {
      assert s[..|p|] == p;
    }
  }

  /** `s.endsWith(p)`. */
  predicate EndsWith(s: string, p: string) {
    |p| <= |s| && s[|s| - |p|..] == p
  }

  /** `s.includes(sub)`: some position of `s` starts a copy of `sub`. */
  function Includes(s: string, sub: string): (r: bool)
    ensures r <==> exists i :: 0 <= i <= |s| && StartsWith(s[i..], sub)
    decreases |s|
  {
    if StartsWith(s, sub) then
      assert StartsWith(s[0..], sub);
      true
    else if |s| == 0 then
      false
    else
      var rest := Includes(s[1..], sub);
      assert forall i :: 1 <= i <= |s| ==> s[i..] == s[1..][i - 1..];
      if rest then
        var i :| 0 <= i <= |s[1..]| && StartsWith(s[1..][i..], sub);
        assert s[1..][i..] == s[i + 1..];
        true
      else
        false
  }

  /** A string without the first character of `sub` cannot include `sub`. */
  lemma NotIncludedWithoutFirstChar(s: string, sub: string)
    requires |sub| > 0 && sub[0] !in s
    ensures !Includes(s, sub)
  {
    forall i | 0 <= i <= |s|
      ensures !StartsWith(s[i..], sub)
    {
      if i < |s| {
        assert s[i..][0] == s[i];
      }
    }
  }

  /** The regular-expression class `\w`: ASCII letters, digits and `_`. */
  predicate IsWordChar(c: char) {
    ('a' <= c <= 'z') || ('A' <= c <= 'Z') || ('0' <= c <= '9') || c == '_'
  }

  /** The ECMAScript regular-expression class `\s`: white space and line
      terminators. */
  predicate IsSpace(c: char) {
    c == ' ' || c == '\t' || c == '\n' || c == '\r' || c == '\U{000B}' || c == '\U{000C}'
    || c == '\U{00A0}' || c == '\U{1680}' || ('\U{2000}' <= c <= '\U{200A}')
    || c == '\U{2028}' || c == '\U{2029}' || c == '\U{202F}' || c == '\U{205F}'
    || c == '\U{3000}' || c == '\U{FEFF}'
  }

  /** Lower-cases the ASCII letters A-Z and leaves every other character alone. */
  function LowerAscii(s: string): (r: string)
    ensures |r| == |s|
    ensures forall i :: 0 <= i < |s| && !('A' <= s[i] <= 'Z') ==> r[i] == s[i]
    ensures forall i :: 0 <= i < |s| ==> !('A' <= r[i] <= 'Z')
    ensures forall i :: 0 <= i < |s| && 'A' <= s[i] <= 'Z' ==> r[i] == (s[i] as int + 32) as char
  {
    seq(|s|, i requires 0 <= i < |s| =>
      if 'A' <= s[i] <= 'Z' then (s[i] as int + 32) as char else s[i])
  }

  /** `s.split(' ')[0]`: everything before the first space, or all of `s`. */
  function FirstWord(s: string): (r: string)
    ensures StartsWith(s, r)
    ensures ' ' !in r
    ensures |r| == |s| || s[|r|] == ' '
  {
    if |s| == 0 || s[0] == ' ' then "" else [s[0]] + FirstWord(s[1..])
  }

  /** The first word of a space-free word followed by a space is that word,
      and a space-free string is its own first word. */
  lemma {:induction false} FirstWordStops(word: string, rest: string)
    requires ' ' !in word
    ensures FirstWord(word + " " + rest) == word
    ensures FirstWord(word) == word
    decreases |word|
  {
    if |word| > 0 {
      assert (word + " " + rest)[1..] == word[1..] + " " + rest;
      FirstWordStops(word[1..], rest);
    } else {
      assert word + " " + rest == " " + rest;
    }
  }

  /** `parts.join(sep)`. */
  function Join(parts: seq<string>, sep: string): (r: string)
    ensures |parts| == 0 ==> r == ""
    ensures |parts| > 0 ==> StartsWith(r, parts[0]) && EndsWith(r, parts[|parts| - 1])
  {
    if |parts| == 0 then ""
    else if |parts| == 1 then parts[0]
    else parts[0] + sep + Join(parts[1..], sep)
  }

  /** Total length of all parts. */
  function TotalLength(parts: seq<string>): nat {
    if |parts| == 0 then 0 else |parts[0]| + TotalLength(parts[1..])
  }

  /** A joined string is the parts plus one separator between each pair. */
  lemma {:induction false} JoinLength(parts: seq<string>, sep: string)
    requires |parts| > 0
    ensures |Join(parts, sep)| == TotalLength(parts) + (|parts| - 1) * |sep|
    decreases |parts|
  {
    if |parts| > 1 {
      var rest := Join(parts[1..], sep);
      assert Join(parts, sep) == parts[0] + sep + rest;
      JoinLength(parts[1..], sep);
      assert TotalLength(parts) == |parts[0]| + TotalLength(parts[1..]);
    }
  }

  /** Joining one more part adds exactly a separator and that part. */
  lemma {:induction false} JoinSnoc(parts: seq<string>, p: string, sep: string)
    requires |parts| > 0
    ensures Join(parts + [p], sep) == Join(parts, sep) + sep + p
    decreases |parts|
  {
    var all := parts + [p];
    JoinCons(all, sep);
    assert all[1..] == parts[1..] + [p];
    if |parts| == 1 {
      assert all[1..] == [p];
    } else {
      JoinSnoc(parts[1..], p, sep);
      JoinCons(parts, sep);
      var tail := Join(parts[1..], sep);
      assert parts[0] + sep + (tail + sep + p) == (parts[0] + sep + tail) + sep + p;
    }
  }

  /** A join of at least two parts is the first part, a separator and the
      join of the rest. */
  lemma JoinCons(parts: seq<string>, sep: string)
    requires |parts| >= 2
    ensures Join(parts, sep) == parts[0] + sep + Join(parts[1..], sep)
  {
  }

  /** Decimal digit character of `d`. */
  function Digit(d: nat): (r: char)
    requires d < 10
    ensures '0' <= r <= '9' && (r == '0' <==> d == 0)
  {
    "0123456789"[d]
  }

  /** Value of a digit character (inverse of `Digit`). */
  function DigitValue(c: char): nat {
    if '0' <= c <= '9' then c as int - '0' as int else 0
  }

  /** Decimal numeral of a natural number, without leading zeros. */
  function Decimal(n: nat): (r: string)
    ensures |r| >= 1
    ensures forall i :: 0 <= i < |r| ==> '0' <= r[i] <= '9'
    ensures r[0] == '0' <==> n == 0
    ensures |r| > 1 ==> r[0] != '0'
  {
    if n < 10 then [Digit(n)] else Decimal(n / 10) + [Digit(n % 10)]
  }

  /** Reads a string of decimal digits back into a number. */
  function DecimalValue(s: string): nat {
    if |s| == 0 then 0 else 10 * DecimalValue(s[..|s| - 1]) + DigitValue(s[|s| - 1])
  }

  /** Reading a printed numeral gives back the number. */
  lemma {:induction false} DecimalRoundTrip(n: nat)
    ensures DecimalValue(Decimal(n)) == n
    decreases n
  {
    if n >= 10 {
      var r := Decimal(n);
      assert r[..|r| - 1] == Decimal(n / 10);
      DecimalRoundTrip(n / 10);
    }
  }

  /** `(t / 100).toFixed(2)` for a threshold `t` held in hundredths. */
  function Fixed2(t: nat): (r: string)
    ensures |r| >= 4 && r[|r| - 3] == '.'
    ensures forall i :: 0 <= i < |r| && i != |r| - 3 ==> '0' <= r[i] <= '9'
    ensures |r| == 4 || r[0] != '0'
  {
    Decimal(t / 100) + "." + [Digit(t / 10 % 10), Digit(t % 10)]
  }

  /** Reading a digit character back gives the digit. */
  lemma DigitRoundTrip(d: nat)
    requires d < 10
    ensures DigitValue(Digit(d)) == d
  {
  }

  /** The two-decimal rendering determines the threshold: integer part and
      the two decimals read back to `t`. */
  lemma Fixed2RoundTrip(t: nat)
    ensures var r := Fixed2(t);
      100 * DecimalValue(r[..|r| - 3]) + DecimalValue(r[|r| - 2..]) == t
  {
    var r := Fixed2(t);
    var whole := Decimal(t / 100);
    var d1, d0 := Digit(t / 10 % 10), Digit(t % 10);
    assert r == whole + "." + [d1, d0];
    assert r[..|r| - 3] == whole;
    DecimalRoundTrip(t / 100);
    var tail := r[|r| - 2..];
    assert tail == [d1, d0];
    assert tail[..1] == [d1];
    assert [d1][..0] == [];
    DigitRoundTrip(t / 10 % 10);
    DigitRoundTrip(t % 10);
    assert DecimalValue([d1]) == t / 10 % 10;
    assert DecimalValue(tail) == 10 * (t / 10 % 10) + t % 10;
    HundredthsSplit(t);
  }

  /** Hundreds, tens and units of `t` add back up to `t`. */
  lemma HundredthsSplit(t: nat)
    ensures 100 * (t / 100) + 10 * (t / 10 % 10) + t % 10 == t
  {
    var a := t / 10;
    assert t == 10 * a + t % 10;
    assert a == 10 * (a / 10) + a % 10;
    assert a / 10 == t / 100;
  }
}
