/** Strings as `seq<char>`: substring search (Go `strings.Contains`) and decimal integers (Go `%d`). */
module Text {
  import opened Types

  /** `sub` occurs in `s` starting at index `i`. */
  predicate OccursAt(s: string, sub: string, i: nat) {
    i + |sub| <= |s| && s[i..i + |sub|] == sub
  }

  /** Go `strings.Contains(s, sub)`: searched from the left, one start position at a time. */
  predicate Contains(s: string, sub: string)
    decreases |s|
  {
    if |sub| > |s| then false
    else if s[..|sub|] == sub then true
    else |s| > 0 && Contains(s[1..], sub)
  }

  /** The search finds `sub` exactly when it occurs at some position. */
  lemma {:induction false} ContainsIff(s: string, sub: string)
    ensures Contains(s, sub) <==> exists i: nat :: i <= |s| && OccursAt(s, sub, i)
    decreases |s|
  {
    if |sub| > |s| {
    } else if s[..|sub|] == sub {
      assert OccursAt(s, sub, 0);
    } else {
      ContainsIff(s[1..], sub);
      if Contains(s[1..], sub) {
        var i: nat :| i <= |s[1..]| && OccursAt(s[1..], sub, i);
        assert s[i + 1..i + 1 + |sub|] == s[1..][i..i + |sub|];
        assert OccursAt(s, sub, i + 1);
      }
      if exists i: nat :: i <= |s| && OccursAt(s, sub, i) {
        var i: nat :| i <= |s| && OccursAt(s, sub, i);
        assert i != 0;
        assert s[1..][i - 1..i - 1 + |sub|] == s[i..i + |sub|];
        assert OccursAt(s[1..], sub, i - 1);
      }
    }
  }

  /** Whatever surrounds it, a fragment is found in a string that holds it. */
  lemma ContainsInfix(pre: string, sub: string, post: string)
    ensures Contains(pre + sub + post, sub)
  {
    var s := pre + sub + post;
    assert s[|pre|..|pre| + |sub|] == sub;
    assert OccursAt(s, sub, |pre|);
    ContainsIff(s, sub);
  }

  /** A string holds its own prefix. */
  lemma ContainsPrefix(sub: string, post: string)
    ensures Contains(sub + post, sub)
  {
    assert (sub + post)[..|sub|] == sub;
  }

  /** An occurrence of `sub` starting at index `i` of `head` would disagree with `head` somewhere inside it. */
  predicate MismatchAt(head: string, sub: string, i: nat) {
    exists k :: 0 <= k < |sub| && i + k < |head| && head[i + k] != sub[k]
  }

  /** A fragment that cannot start inside `head` and is not in `rest` is not in `head + rest`. */
  lemma NotContainsJoin(head: string, rest: string, sub: string)
    requires forall i: nat :: i < |head| ==> MismatchAt(head, sub, i)
    requires !Contains(rest, sub)
    ensures !Contains(head + rest, sub)
  {
    var s := head + rest;
    ContainsIff(rest, sub);
    forall j: nat | j <= |s| ensures !OccursAt(s, sub, j) {
      if j < |head| {
        assert MismatchAt(head, sub, j);
        var k :| 0 <= k < |sub| && j + k < |head| && head[j + k] != sub[k];
        if j + |sub| <= |s| {
          assert s[j..j + |sub|][k] == head[j + k];
        }
      } else if j + |sub| <= |s| {
        assert s[j..j + |sub|] == rest[j - |head|..j - |head| + |sub|];
        assert !OccursAt(rest, sub, j - |head|);
      }
    }
    ContainsIff(s, sub);
  }

  // ----- decimal integers -----

  function DigitChar(d: nat): (c: char)
    requires d < 10
    ensures '0' <= c <= '9'
  {
    ('0' as int + d) as char
  }

  predicate IsDigit(c: char) { '0' <= c <= '9' }

  function DigitValue(c: char): (d: nat)
    requires IsDigit(c)
    ensures d < 10
  {
    (c as int - '0' as int) as nat
  }

  /** Go `%d` of a non-negative integer: most significant digit first, no leading zeros. */
  function NatToDecimal(n: nat): (s: string)
    ensures |s| >= 1
    ensures forall i :: 0 <= i < |s| ==> IsDigit(s[i])
    decreases n
  {
    if n < 10 then [DigitChar(n)] else NatToDecimal(n / 10) + [DigitChar(n % 10)]
  }

  /** Go `%d` of an int: a minus sign in front of a negative value. */
  function IntToDecimal(i: int): (s: string)
    ensures |s| >= 1
  {
    if i < 0 then "-" + NatToDecimal(-i) else NatToDecimal(i)
  }

  /** The value of a string of decimal digits (0 for the empty string). */
  function DecimalValue(s: string): nat
    requires forall i :: 0 <= i < |s| ==> IsDigit(s[i])
  {
    if s == [] then 0 else 10 * DecimalValue(s[..|s| - 1]) + DigitValue(s[|s| - 1])
  }

  /** Reads back what `IntToDecimal` writes; `None` for anything that is not an optional '-' and one or more digits. */
  function ParseInt(s: string): Option<int> {
    if |s| > 0 && s[0] == '-' then
      (if |s| > 1 && forall i :: 1 <= i < |s| ==> IsDigit(s[i]) then Some(-(DecimalValue(s[1..]) as int)) else None)
    else if |s| > 0 && forall i :: 0 <= i < |s| ==> IsDigit(s[i]) then Some(DecimalValue(s))
    else None
  }

  lemma {:induction false} NatDecimalRoundTrip(n: nat)
    ensures DecimalValue(NatToDecimal(n)) == n
    decreases n
  {
    var s := NatToDecimal(n);
    if n < 10 {
      assert s[..|s| - 1] == [];
    } else {
      NatDecimalRoundTrip(n / 10);
      assert s[..|s| - 1] == NatToDecimal(n / 10);
    }
  }

  /** Rendering an int in decimal and parsing it back gives the int. */
  lemma IntDecimalRoundTrip(i: int)
    ensures ParseInt(IntToDecimal(i)) == Some(i)
  {
    if i < 0 {
      var n: nat := -i;
      var d := NatToDecimal(n);
      assert IntToDecimal(i) == "-" + d;
      NatDecimalRoundTrip(n);
      ParseNegative(d);
    } else {
      var d := NatToDecimal(i);
      assert IntToDecimal(i) == d;
      NatDecimalRoundTrip(i);
      ParseDigits(d);
    }
  }

  lemma ParseDigits(d: string)
    requires |d| >= 1 && forall k :: 0 <= k < |d| ==> IsDigit(d[k])
    ensures ParseInt(d) == Some(DecimalValue(d))
  {
    assert IsDigit(d[0]);
  }

  lemma ParseNegative(d: string)
    requires |d| >= 1 && forall k :: 0 <= k < |d| ==> IsDigit(d[k])
    ensures ParseInt("-" + d) == Some(-(DecimalValue(d) as int))
  {
    var s := "-" + d;
    assert s[1..] == d;
    forall k | 1 <= k < |s| ensures IsDigit(s[k]) {
      assert s[k] == d[k - 1];
    }
  }

  /** A decimal rendering holds no character other than digits and '-'. */
  lemma IntDecimalChars(i: int, c: char)
    requires c in IntToDecimal(i)
    ensures IsDigit(c) || c == '-'
  {
    if i >= 0 {
      var s := NatToDecimal(i);
      var k :| 0 <= k < |s| && s[k] == c;
    } else {
      var s := NatToDecimal(-i);
      var k :| 0 <= k < |"-" + s| && ("-" + s)[k] == c;
      if k > 0 { assert ("-" + s)[k] == s[k - 1]; }
    }
  }

  // ----- last occurrence of a character -----

  /** Index of the last `c` in `s`, if any. */
  function LastIndex(s: string, c: char): (r: Option<nat>)
    ensures r.Some? ==> r.value < |s| && s[r.value] == c && forall k :: r.value < k < |s| ==> s[k] != c
    ensures r.None? ==> c !in s
  {
    if s == [] then None
    else if s[|s| - 1] == c then Some(|s| - 1)
    else LastIndex(s[..|s| - 1], c)
  }
}
