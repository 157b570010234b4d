/** String helpers shared by the clients and the backend: whitespace,
    trimming, letter case, joining and decimal rendering of integers.
    Only ASCII letters and ASCII whitespace are modelled. */
module Text {

  /** ASCII whitespace: tab, line feed, vertical tab, form feed, carriage return, space. */
  predicate IsSpace(c: char) {
    c == ' ' || c == '\t' || c == '\n' || c == '\r' || c == 11 as char || c == 12 as char
  }

  /** True of the empty string and of strings made of whitespace only. */
  predicate IsBlank(s: string) {
    forall i | 0 <= i < |s| :: IsSpace(s[i])
  }

  /** A space followed by blank text is blank text. */
  lemma SpaceThenBlank(s: string, n: nat)
    requires 0 < n <= |s| && IsSpace(s[0]) && IsBlank(s[1..n])
    ensures IsBlank(s[..n])
  {
    forall i | 0 < i < n ensures IsSpace(s[i]) {
      assert s[i] == s[1..n][i - 1];
    }
  }

  /** JavaScript `trimStart`: drop leading whitespace. */
  function TrimStart(s: string): (r: string)
    ensures |r| <= |s| && r == s[|s| - |r|..]
    ensures IsBlank(s[..|s| - |r|])
    ensures r == [] || !IsSpace(r[0])
  {
    if s != [] && IsSpace(s[0]) then
      var r := TrimStart(s[1..]);
      assert s[1..][..|s| - 1 - |r|] == s[1..|s| - |r|];
      SpaceThenBlank(s, |s| - |r|);
      r
    else s
  }

  /** JavaScript `trimEnd`: drop trailing whitespace. */
  function TrimEnd(s: string): (r: string)
    ensures |r| <= |s| && r == s[..|r|]
    ensures IsBlank(s[|r|..])
    ensures r == [] || !IsSpace(r[|r| - 1])
  {
    if s != [] && IsSpace(s[|s| - 1]) then TrimEnd(s[..|s| - 1]) else s
  }

  /** JavaScript `trim` (and Python `strip()` on ASCII input): the leading
      whitespace is dropped as `TrimStart` drops it, then `TrimEnd`. */
  function Trim(s: string): (r: string)
    ensures |r| <= |s|
    ensures r == [] <==> IsBlank(s)
    ensures r != [] ==> !IsSpace(r[0]) && !IsSpace(r[|r| - 1])
  {
    if s != [] && IsSpace(s[0]) then
      var r := Trim(s[1..]);
      assert IsBlank(s[1..]) ==> IsBlank(s) by {
        if IsBlank(s[1..]) {
          forall i | 0 < i < |s| ensures IsSpace(s[i]) {
            assert s[i] == s[1..][i - 1];
          }
        }
      }
      r
    else
      var r := TrimEnd(s);
      assert r == [] ==> IsBlank(s) by {
        if r == [] {
          assert s[|r|..] == s;
        }
      }
      r
  }
  /** `Trim` is `trimStart` followed by `trimEnd`, as JavaScript defines `trim`. */
  lemma {:induction false} TrimIsTrimEndOfTrimStart(s: string)
    ensures Trim(s) == TrimEnd(TrimStart(s))
  {
    if s != [] && IsSpace(s[0]) {
      TrimIsTrimEndOfTrimStart(s[1..]);
    }
  }



  function LowerChar(c: char): char {
    if 'A' <= c <= 'Z' then (c as int + 32) as char else c
  }

  function UpperChar(c: char): char {
    if 'a' <= c <= 'z' then (c as int - 32) as char else c
  }

  /** `toLowerCase()` / `lower()` on ASCII letters. */
  function ToLower(s: string): (r: string)
    ensures |r| == |s|
  {
    seq(|s|, i requires 0 <= i < |s| => LowerChar(s[i]))
  }

  /** `upper()` on ASCII letters. */
  function ToUpper(s: string): (r: string)
    ensures |r| == |s|
  {
    seq(|s|, i requires 0 <= i < |s| => UpperChar(s[i]))
  }

  /** Lower-casing twice is lower-casing once. */
  lemma ToLowerIdempotent(s: string)
    ensures ToLower(ToLower(s)) == ToLower(s)
  {
  }

  /** Python `str.capitalize()`: first character upper-cased, the rest lower-cased. */
  function Capitalize(s: string): (r: string)
    ensures |r| == |s|
  {
    if s == [] then [] else [UpperChar(s[0])] + ToLower(s[1..])
  }

  /** `text.includes(pattern)` / Python's `pattern in text`. */
  function Contains(text: string, pattern: string): bool
    decreases |text|
  {
    if pattern <= text then true
    else if text == [] then false
    else Contains(text[1..], pattern)
  }

  /** `pattern` occurs in `text` starting at position `i`. */
  predicate OccursAt(text: string, pattern: string, i: int) {
    0 <= i && i + |pattern| <= |text| && text[i..i + |pattern|] == pattern
  }

  /** An occurrence of `pattern` at position `i` makes `Contains` true. */
  lemma {:induction false} ContainsOccurrence(text: string, pattern: string, i: nat)
    requires OccursAt(text, pattern, i)
    ensures Contains(text, pattern)
    decreases i
  {
    if i == 0 {
      assert pattern <= text;
    } else if !(pattern <= text) {
      assert text[1..][i - 1..i - 1 + |pattern|] == text[i..i + |pattern|];
      ContainsOccurrence(text[1..], pattern, i - 1);
    }
  }

  /** When `Contains` holds, `pattern` occurs at some position. */
  lemma {:induction false} ContainsWitness(text: string, pattern: string) returns (i: nat)
    requires Contains(text, pattern)
    ensures OccursAt(text, pattern, i)
    decreases |text|
  {
    if pattern <= text {
      i := 0;
    } else {
      var j := ContainsWitness(text[1..], pattern);
      assert text[1..][j..j + |pattern|] == text[j + 1..j + 1 + |pattern|];
      i := j + 1;
    }
  }

  /** `Contains` is exactly "occurs somewhere". */
  lemma ContainsIffOccurs(text: string, pattern: string)
    ensures Contains(text, pattern) <==> exists i :: OccursAt(text, pattern, i)
  {
    if Contains(text, pattern) {
      var i := ContainsWitness(text, pattern);
    }
    if exists i :: OccursAt(text, pattern, i) {
      var i :| OccursAt(text, pattern, i);
      ContainsOccurrence(text, pattern, i);
    }
  }

  /** `sep.join(parts)`. */
  function Join(sep: string, parts: seq<string>): string
    decreases |parts|
  {
    if parts == [] then ""
    else if |parts| == 1 then parts[0]
    else parts[0] + sep + Join(sep, parts[1..])
  }

  function DigitChar(d: nat): char
    requires d < 10
  {
    ('0' as int + d) as char
  }

  predicate IsDigit(c: char) {
    '0' <= c <= '9'
  }

  /** Decimal rendering of a natural number, most significant digit first. */
  function NatToString(n: nat): (r: string)
    ensures r != []
    ensures forall i | 0 <= i < |r| :: IsDigit(r[i])
  {
    if n < 10 then [DigitChar(n)] else NatToString(n / 10) + [DigitChar(n % 10)]
  }

  /** Decimal rendering of an integer as template literals and f-strings print it. */
  function IntToString(n: int): (r: string)
    ensures r != []
  {
    if n < 0 then "-" + NatToString(-n) else NatToString(n)
  }

  /** Reads a string of decimal digits back. */
  function ParseNat(s: string): nat
    requires forall i | 0 <= i < |s| :: IsDigit(s[i])
  {
    if s == [] then 0
    else
      assert IsDigit(s[|s| - 1]);
      ParseNat(s[..|s| - 1]) * 10 + (s[|s| - 1] as int - '0' as int)
  }

  /** Decimal rendering loses nothing: the number can be read back. */
  lemma {:induction false} NatToStringRoundTrip(n: nat)
    ensures ParseNat(NatToString(n)) == n
  {
    if n >= 10 {
      var prefix := NatToString(n / 10);
      var s := prefix + [DigitChar(n % 10)];
      assert s[..|s| - 1] == prefix;
      NatToStringRoundTrip(n / 10);
    }
  }

  /** The number of UTF-16 code units that encode `c`: two for a character
      above U+FFFF (a surrogate pair), one otherwise. */
  function Utf16Units(c: char): nat {
    if c as int > 0xFFFF then 2 else 1
  }

  /** Every character lies in the Basic Multilingual Plane. */
  predicate InBmp(s: string) {
    forall i | 0 <= i < |s| :: s[i] as int <= 0xFFFF
  }

  lemma InBmpTail(s: string)
    requires s != [] && InBmp(s)
    ensures s[0] as int <= 0xFFFF && InBmp(s[1..])
  {
    forall i | 0 <= i < |s[1..]| ensures s[1..][i] as int <= 0xFFFF {
      assert s[1..][i] == s[i + 1];
    }
  }

  /** JavaScript's `length`: the number of UTF-16 code units, not of characters. */
  function Utf16Length(s: string): (n: nat)
    ensures |s| <= n <= 2 * |s|
    ensures n == 0 <==> s == []
  {
    if s == [] then 0 else Utf16Units(s[0]) + Utf16Length(s[1..])
  }

  /** On text inside the Basic Multilingual Plane, JavaScript's `length` is the
      number of characters. */
  lemma {:induction false} Utf16LengthInBmp(s: string)
    requires InBmp(s)
    ensures Utf16Length(s) == |s|
  {
    if s != [] {
      InBmpTail(s);
      Utf16LengthInBmp(s[1..]);
    }
  }

  /** Text made only of characters above U+FFFF has twice as many code units. */
  lemma {:induction false} AllAstralLength(q: string)
    requires forall i | 0 <= i < |q| :: q[i] as int > 0xFFFF
    ensures Utf16Length(q) == 2 * |q|
  {
    if q != [] {
      assert forall i | 0 <= i < |q[1..]| :: q[1..][i] == q[i + 1];
      AllAstralLength(q[1..]);
    }
  }

  /** `s.substring(0, n)` for a cut that does not split a surrogate pair: the
      longest prefix of `s` whose UTF-16 length is at most `n` (none for a
      negative `n`). */
  function Utf16Prefix(s: string, n: int): (p: string)
    ensures p <= s
    ensures Utf16Length(p) <= if n < 0 then 0 else n
    ensures p == s || Utf16Length(p) + Utf16Units(s[|p|]) > n
  {
    if s == [] || Utf16Units(s[0]) > n then []
    else
      var rest := Utf16Prefix(s[1..], n - Utf16Units(s[0]));
      assert ([s[0]] + rest)[1..] == rest;
      [s[0]] + rest
  }

  /** Inside the Basic Multilingual Plane the cut is after `n` characters. */
  lemma {:induction false} Utf16PrefixInBmp(s: string, n: nat)
    requires InBmp(s) && n <= |s|
    ensures Utf16Prefix(s, n) == s[..n]
  {
    if s != [] && n > 0 {
      InBmpTail(s);
      assert Utf16Prefix(s, n) == [s[0]] + Utf16Prefix(s[1..], n - 1);
      Utf16PrefixInBmp(s[1..], n - 1);
      assert s[..n] == [s[0]] + s[1..][..n - 1];
    }
  }
}
