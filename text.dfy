/**
 * The JavaScript string built-ins the controller relies on: `String.prototype.trim`,
 * `String.prototype.includes`, and the decimal rendering of a number in a template literal.
 */
module Text {

  /** The code points `trim` removes: ECMAScript's WhiteSpace and LineTerminator characters. */
  predicate IsTrimmable(c: char) {
    || c == '\t' || c == '\U{000B}' || c == '\U{000C}' || c == ' '
    || c == '\U{00A0}' || c == '\U{FEFF}' || c == '\U{1680}'
    || ('\U{2000}' <= c <= '\U{200A}')
    || c == '\U{202F}' || c == '\U{205F}' || c == '\U{3000}'
    || c == '\n' || c == '\r' || c == '\U{2028}' || c == '\U{2029}'
  }

  /** Drops the leading trimmable characters. */
  function TrimStart(s: string): (r: string)
    ensures |r| <= |s| && r == s[|s| - |r|..]
    ensures forall i :: 0 <= i < |s| - |r| ==> IsTrimmable(s[i])
    ensures r == [] || !IsTrimmable(r[0])
    decreases |s|
  {
    if s != [] && IsTrimmable(s[0]) then TrimStart(s[1..]) else s
  }

  /** Drops the trailing trimmable characters. */
  function TrimEnd(s: string): (r: string)
    ensures |r| <= |s| && r == s[..|r|]
    ensures forall i :: |r| <= i < |s| ==> IsTrimmable(s[i])
    ensures r == [] || !IsTrimmable(r[|r| - 1])
    decreases |s|
  {
    if s != [] && IsTrimmable(s[|s| - 1]) then TrimEnd(s[..|s| - 1]) else s
  }

  /** `r` is the slice of `s` at index `a`, and every character of `s` outside it is trimmable. */
  predicate TrimmedSlice(s: string, r: string, a: int) {
    && 0 <= a <= |s| - |r|
    && r == s[a..a + |r|]
    && (forall k :: 0 <= k < a ==> IsTrimmable(s[k]))
    && (forall k :: a + |r| <= k < |s| ==> IsTrimmable(s[k]))
  }

  /** `s.trim()`: both ends stripped; the result is empty exactly when every character is trimmable. */
  function Trim(s: string): (r: string)
    ensures |r| <= |s|
    ensures r != [] ==> !IsTrimmable(r[0]) && !IsTrimmable(r[|r| - 1])
    ensures r == [] <==> forall i :: 0 <= i < |s| ==> IsTrimmable(s[i])
  {
    TrimEnd(TrimStart(s))
  }

  /** A prefix `r` of a suffix `t` of `s`, with trimmable characters around it, is a trimmed
      slice of `s`. */
  lemma PrefixOfSuffixIsSlice(s: string, t: string, r: string)
    requires |t| <= |s| && t == s[|s| - |t|..]
    requires |r| <= |t| && r == t[..|r|]
    requires forall i :: 0 <= i < |s| - |t| ==> IsTrimmable(s[i])
    requires forall i :: |r| <= i < |t| ==> IsTrimmable(t[i])
    ensures TrimmedSlice(s, r, |s| - |t|)
  {
    var a := |s| - |t|;
    forall k | a + |r| <= k < |s|
      ensures IsTrimmable(s[k])
    {
      assert s[k] == t[k - a];
    }
  }

  /** `s.trim()` is the input with its leading and trailing trimmable characters cut off. */
  lemma TrimIsSlice(s: string)
    ensures exists a :: TrimmedSlice(s, Trim(s), a)
  {
    var t := TrimStart(s);
    var r := TrimEnd(t);
    PrefixOfSuffixIsSlice(s, t, r);
    assert TrimmedSlice(s, Trim(s), |s| - |t|);
  }

  /** Trimming twice is trimming once. */
  lemma TrimIdempotent(s: string)
    ensures Trim(Trim(s)) == Trim(s)
  {
    var r := Trim(s);
    if r != [] {
      assert TrimStart(r) == r;
      assert TrimEnd(r) == r;
    }
  }

  /** `t` occurs in `s` starting at index `i`. */
  ghost predicate OccursAt(s: string, t: string, i: int) {
    0 <= i && i + |t| <= |s| && s[i..i + |t|] == t
  }

  /** `s.includes(t)`: `t` is a prefix of `s` or occurs in the tail of `s`. */
  predicate Contains(s: string, t: string)
    decreases |s|
  {
    |t| <= |s| && (s[..|t|] == t || Contains(s[1..], t))
  }

  /** `Contains` agrees with the positional definition of a substring. */
  lemma {:induction false} ContainsIffOccurs(s: string, t: string)
    ensures Contains(s, t) <==> exists i :: OccursAt(s, t, i)
    decreases |s|
  {
    if |t| > |s| {
    } else if s[..|t|] == t {
      assert OccursAt(s, t, 0);
    } else {
      ContainsIffOccurs(s[1..], t);
      if Contains(s, t) {
        var i :| OccursAt(s[1..], t, i);
        assert s[1..][i..i + |t|] == s[i + 1..i + 1 + |t|];
        assert OccursAt(s, t, i + 1);
      }
      if exists i :: OccursAt(s, t, i) {
        var i :| OccursAt(s, t, i);
        assert i != 0;
        assert s[1..][i - 1..i - 1 + |t|] == s[i..i + |t|];
        assert OccursAt(s[1..], t, i - 1);
      }
    }
  }

  /** Every character of a contained string is a character of the containing one. */
  lemma {:induction false} ContainedCharsOccur(s: string, t: string, c: char)
    requires Contains(s, t) && c in t
    ensures c in s
    decreases |s|
  {
    if s[..|t|] == t {
      var k :| 0 <= k < |t| && t[k] == c;
      assert s[k] == c;
    } else {
      ContainedCharsOccur(s[1..], t, c);
    }
  }

  /** A string holding a character that `s` lacks is not contained in `s`. */
  lemma MissingCharNotContained(s: string, t: string, c: char)
    requires c in t && c !in s
    ensures !Contains(s, t)
  {
    if Contains(s, t) {
      ContainedCharsOccur(s, t, c);
    }
  }

  predicate IsDigit(c: char) {
    '0' <= c <= '9'
  }

  function DigitChar(d: nat): (c: char)
    requires d < 10
    ensures IsDigit(c)
  {
    (d + '0' as int) as char
  }

  /** The number a string of decimal digits denotes. */
  function DecimalValue(s: string): nat
    requires forall c :: c in s ==> IsDigit(c)
  {
    if s == [] then 0
    else
      var last := s[|s| - 1];
      assert last in s && IsDigit(last);
      assert '0' as int <= last as int;
      DecimalValue(s[..|s| - 1]) * 10 + (last as int - '0' as int)
  }

  /** The decimal text of a number, as a template literal renders it: digits that denote the
      number, without a leading zero. */
  function NatToString(n: nat): (r: string)
    ensures r != []
    ensures forall c :: c in r ==> IsDigit(c)
    ensures DecimalValue(r) == n
    ensures r[0] != '0' || r == "0"
  {
    if n < 10 then [DigitChar(n)]
    else
      var front := NatToString(n / 10);
      var r := front + [DigitChar(n % 10)];
      assert r[..|r| - 1] == front;
      r
  }
}
