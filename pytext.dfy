/** The few Python string operations the program relies on: `str.strip`,
    `str.lower`, `str(int)`, `str.join` and the regular-expression class `\d`. */
module PyText {

  /** The characters for which Python's `str.isspace()` holds; `str.strip()`
      with no argument removes exactly these from both ends. */
  predicate IsSpace(c: char) {
    || c == ' '
    || ('\t' <= c <= '\r')
    || ('\U{1C}' <= c <= '\U{1F}')
    || c == '\U{85}' || c == '\U{A0}' || c == '\U{1680}'
    || ('\U{2000}' <= c <= '\U{200A}')
    || c == '\U{2028}' || c == '\U{2029}' || c == '\U{202F}' || c == '\U{205F}' || c == '\U{3000}'
  }

  /** The ASCII decimal digits, the part of `\d` this model keeps. */
  predicate IsDigit(c: char) {
    '0' <= c <= '9'
  }

  function StripLeft(s: string): (t: string) {
    if s != [] && IsSpace(s[0]) then StripLeft(s[1..]) else s
  }

  function StripRight(s: string): (t: string) {
    if s != [] && IsSpace(s[|s| - 1]) then StripRight(s[..|s| - 1]) else s
  }

  /** Python's `s.strip()`. */
  function Strip(s: string): (t: string) {
    StripRight(StripLeft(s))
  }

  /** `s.strip()` is the longest slice of `s` that neither starts nor ends
      with white space, reached by dropping only white space. */
  lemma StripIsTrimmedSlice(s: string)
    ensures var r := Strip(s);
      exists i, j :: (0 <= i <= j <= |s| && r == s[i..j]
        && (forall k :: 0 <= k < i ==> IsSpace(s[k]))
        && (forall k :: j <= k < |s| ==> IsSpace(s[k])))
    ensures var r := Strip(s); r != [] ==> !IsSpace(r[0]) && !IsSpace(r[|r| - 1])
  {
    StripLeftSlice(s);
    var t := StripLeft(s);
    StripRightSlice(t);
    var r := StripRight(t);
    var i := |s| - |t|;
    assert r == s[i..i + |r|];
    assert forall k :: i + |r| <= k < |s| ==> s[k] == t[k - i];
    if r != [] {
      assert r[0] == t[0];
    }
  }

  lemma {:induction false} StripLeftSlice(s: string)
    ensures var t := StripLeft(s);
      |t| <= |s| && t == s[|s| - |t|..]
      && (forall k :: 0 <= k < |s| - |t| ==> IsSpace(s[k]))
      && (t != [] ==> !IsSpace(t[0]))
  {
    if s != [] && IsSpace(s[0]) {
      StripLeftSlice(s[1..]);
    }
  }

  lemma {:induction false} StripRightSlice(s: string)
    ensures var t := StripRight(s);
      |t| <= |s| && t == s[..|t|]
      && (forall k :: |t| <= k < |s| ==> IsSpace(s[k]))
      && (t != [] ==> !IsSpace(t[|t| - 1]))
  {
    if s != [] && IsSpace(s[|s| - 1]) {
      StripRightSlice(s[..|s| - 1]);
    }
  }

  /** `not s.strip()`: the string holds nothing but white space. */
  predicate IsBlank(s: string) {
    Strip(s) == []
  }

  /** A string is blank exactly when every one of its characters is white space. */
  lemma BlankIffAllSpace(s: string)
    ensures IsBlank(s) <==> forall k :: 0 <= k < |s| ==> IsSpace(s[k])
  {
    StripIsTrimmedSlice(s);
    var r := Strip(s);
    var i, j :| (0 <= i <= j <= |s| && r == s[i..j]
      && (forall k :: 0 <= k < i ==> IsSpace(s[k]))
      && (forall k :: j <= k < |s| ==> IsSpace(s[k])));
    if r != [] {
      assert r[0] == s[i] && !IsSpace(s[i]);
    } else {
      assert i == j;
    }
  }

  function LowerChar(c: char): (lower: char) {
    if 'A' <= c <= 'Z' then (c as int + 32) as char else c
  }

  /** Python's `s.lower()` on ASCII letters; other characters are kept. */
  function Lower(s: string): (r: string)
    ensures |r| == |s|
    ensures forall k :: 0 <= k < |s| ==> r[k] == LowerChar(s[k])
  {
    if s == [] then [] else [LowerChar(s[0])] + Lower(s[1..])
  }

  /** The lower-cased text is a single letter `x` exactly when the text is
      that letter in either case. */
  lemma LowerIsLetter(s: string, x: char)
    requires 'a' <= x <= 'z'
    ensures Lower(s) == [x] <==> s == [x] || s == [(x as int - 32) as char]
  {
    if Lower(s) == [x] {
      assert LowerChar(s[0]) == x;
    }
  }

  /** `s[start..start + n]` consists of decimal digits: how `\d{n}` matches
      at position `start`, consuming one digit per step. */
  predicate DigitsAt(s: string, start: nat, n: nat)
    decreases n
  {
    n == 0 || (start < |s| && IsDigit(s[start]) && DigitsAt(s, start + 1, n - 1))
  }

  /** The step-by-step match of `\d{n}` agrees with the plain description:
      `n` characters are left and all of them are digits. */
  lemma {:induction false} DigitsAtIff(s: string, start: nat, n: nat)
    requires start <= |s|
    ensures DigitsAt(s, start, n) <==>
      start + n <= |s| && forall k :: start <= k < start + n ==> IsDigit(s[k])
    decreases n
  {
    if n > 0 && start < |s| {
      DigitsAtIff(s, start + 1, n - 1);
      if start + n <= |s| && forall k :: start <= k < start + n ==> IsDigit(s[k]) {
        assert IsDigit(s[start]);
      }
    }
  }

  function DigitChar(d: nat): (c: char)
    requires d < 10
  {
    ('0' as int + d) as char
  }

  /** Python's `str(n)` for a natural number. */
  function NatText(n: nat): (r: string)
    ensures r != [] && forall k :: 0 <= k < |r| ==> IsDigit(r[k])
  {
    if n < 10 then [DigitChar(n)] else NatText(n / 10) + [DigitChar(n % 10)]
  }

  /** Python's `str(i)` for any integer. */
  function IntText(i: int): (text: string) {
    if i < 0 then "-" + NatText(-i) else NatText(i)
  }

  /** Python's `sep.join(parts)`. */
  function Join(sep: string, parts: seq<string>): (joined: string) {
    if parts == [] then ""
    else if |parts| == 1 then parts[0]
    else parts[0] + sep + Join(sep, parts[1..])
  }
}
