/** The string operations the scheduler relies on, as Python defines them:
    `str(n)` for a non-negative integer, `s.replace(token, value)` and the
    substring test `sub in s`. */
module Text {

  /** The character of a decimal digit. */
  function Digit(d: nat): (c: char)
    requires d < 10
    ensures '0' <= c <= '9'
  {
    ('0' as int + d) as char
  }

  /** The value of a decimal digit character; the inverse of Digit. */
  function DigitValue(c: char): (d: nat)
    requires '0' <= c <= '9'
    ensures d < 10 && Digit(d) == c
  {
    c as int - '0' as int
  }

  predicate IsDigits(s: string) {
    forall i :: 0 <= i < |s| ==> '0' <= s[i] <= '9'
  }

  /** Python's `str(n)` for n >= 0: the decimal digits of n, most significant
      first, with no leading zero. */
  function Decimal(n: nat): (s: string)
    ensures |s| >= 1 && IsDigits(s)
    ensures s[0] == '0' <==> n == 0
    decreases n
  {
    if n < 10 then [Digit(n)] else Decimal(n / 10) + [Digit(n % 10)]
  }

  /** Reads a string of decimal digits back as a number. */
  function ParseDecimal(s: string): (n: nat)
    requires IsDigits(s)
  {
    if s == [] then 0 else 10 * ParseDecimal(s[..|s| - 1]) + DigitValue(s[|s| - 1])
  }

  /** Reading back the decimal string of n gives n. */
  lemma {:induction false} ParseDecimalOfDecimal(n: nat)
    ensures ParseDecimal(Decimal(n)) == n
    decreases n
  {
    var s := Decimal(n);
    if n >= 10 {
      assert s[..|s| - 1] == Decimal(n / 10);
      ParseDecimalOfDecimal(n / 10);
    } else {
      assert s[..|s| - 1] == [];
    }
  }

  /** Distinct run indices give distinct decimal strings. */
  lemma DecimalInjective(m: nat, n: nat)
    ensures Decimal(m) == Decimal(n) ==> m == n
  {
    ParseDecimalOfDecimal(m);
    ParseDecimalOfDecimal(n);
  }

  /** `sub` occurs in `s` starting at position i. */
  predicate OccursAt(s: string, sub: string, i: nat) {
    i + |sub| <= |s| && s[i..i + |sub|] == sub
  }

  /** Python's `sub in s`, scanning s from the left: a match never needs more
      text than there is, and a prefix (so the empty string) is always found. */
  predicate Contains(s: string, sub: string)
    ensures Contains(s, sub) ==> |sub| <= |s|
    ensures sub <= s ==> Contains(s, sub)
    decreases |s|
  {
    if |s| < |sub| then false
    else s[..|sub|] == sub || Contains(s[1..], sub)
  }

  /** The scan finds `sub` exactly when it occurs at some position. */
  lemma {:induction false} ContainsIffOccurs(s: string, sub: string)
    ensures Contains(s, sub) <==> exists i: nat :: OccursAt(s, sub, i)
    decreases |s|
  {
    if |s| < |sub| {
      forall i: nat ensures !OccursAt(s, sub, i) { }
    } else if s[..|sub|] == sub {
      assert OccursAt(s, sub, 0);
    } else {
      ContainsIffOccurs(s[1..], sub);
      if Contains(s[1..], sub) {
        var i: nat :| OccursAt(s[1..], sub, i);
        assert s[i + 1..i + 1 + |sub|] == s[1..][i..i + |sub|];
        assert OccursAt(s, sub, i + 1);
      } else {
        forall i: nat | OccursAt(s, sub, i) ensures false {
          assert i != 0;
          assert s[1..][i - 1..i - 1 + |sub|] == s[i..i + |sub|];
          assert OccursAt(s[1..], sub, i - 1);
        }
      }
    }
  }

  /** Python's `s.replace(token, value)`: a non-empty token is replaced at
      every non-overlapping occurrence found scanning left to right; an empty
      token puts `value` before every character and once more at the end.
      Text that is just the token becomes the value. */
  function Replace(s: string, token: string, value: string): (r: string)
    ensures s == token ==> r == value
    ensures token == [] ==> |r| == |s| + (|s| + 1) * |value|
  {
    if token == [] then Interleave(s, value)
    else
      assert s == token ==> s[..|token|] == token && s[|token|..] == [] && ReplaceEach([], token, value) == [];
      ReplaceEach(s, token, value)
  }

  function Interleave(s: string, value: string): (r: string)
    ensures |r| == |s| + (|s| + 1) * |value|
    decreases |s|
  {
    if s == [] then value else value + [s[0]] + Interleave(s[1..], value)
  }

  function ReplaceEach(s: string, token: string, value: string): (r: string)
    requires token != []
    decreases |s|
  {
    if |s| < |token| then s
    else if s[..|token|] == token then value + ReplaceEach(s[|token|..], token, value)
    else [s[0]] + ReplaceEach(s[1..], token, value)
  }

  /** A command without the token is launched verbatim. */
  lemma {:induction false} ReplaceAbsent(s: string, token: string, value: string)
    requires token != [] && !Contains(s, token)
    ensures Replace(s, token, value) == s
    decreases |s|
  {
    if |s| >= |token| {
      ReplaceAbsent(s[1..], token, value);
      assert [s[0]] + s[1..] == s;
    }
  }

  /** Text that lacks the token's first character cannot hold the token
      starting in it. */
  lemma NoTokenBefore(p: string, token: string)
    requires token != [] && token[0] !in p
    ensures !Contains(p + token[..|token| - 1], token)
  {
    var s := p + token[..|token| - 1];
    ContainsIffOccurs(s, token);
    forall i: nat | OccursAt(s, token, i) ensures false { }
  }

  /** Where the text does not start with the token, its first character is
      kept and replacement goes on after it. */
  lemma ReplaceSkip(s: string, token: string, value: string)
    requires token != [] && |s| >= |token| && s[..|token|] != token
    ensures Replace(s, token, value) == [s[0]] + Replace(s[1..], token, value)
  {
  }

  /** Text that starts with the token gets the value in its place. */
  lemma ReplaceHit(token: string, q: string, value: string)
    requires token != []
    ensures Replace(token + q, token, value) == value + Replace(q, token, value)
  {
    var s := token + q;
    assert s[..|token|] == token && s[|token|..] == q;
  }

  /** A text without `sub` does not start with it, nor holds it after its
      first character. */
  lemma NotContainedStep(t: string, sub: string)
    requires |t| >= |sub| && !Contains(t, sub)
    ensures t[..|sub|] != sub && !Contains(t[1..], sub)
  {
  }

  /** Putting the first character back in front of the rest. */
  lemma ConsRest(p: string, v: string, r: string)
    requires p != []
    ensures [p[0]] + (p[1..] + v + r) == p + v + r
  {
    assert [p[0]] + p[1..] == p;
  }

  /** How text around the token splits once its first character is dropped. */
  lemma AroundParts(p: string, token: string, q: string)
    requires p != [] && token != []
    ensures (p + token + q)[0] == p[0]
    ensures (p + token + q)[1..] == p[1..] + token + q
    ensures (p + token + q)[..|token|] == (p + token[..|token| - 1])[..|token|]
    ensures (p + token[..|token| - 1])[1..] == p[1..] + token[..|token| - 1]
  {
  }

  /** Replacement happens around the token: text before the first occurrence
      is kept, the occurrence becomes the value, and the rest is replaced in
      turn. */
  lemma {:induction false} ReplaceAround(p: string, token: string, value: string, q: string)
    requires token != [] && !Contains(p + token[..|token| - 1], token)
    ensures Replace(p + token + q, token, value) == p + value + Replace(q, token, value)
    decreases |p|
  {
    var s := p + token + q;
    if p == [] {
      assert s == token + q;
      ReplaceHit(token, q, value);
    } else {
      NotContainedStep(p + token[..|token| - 1], token);
      AroundParts(p, token, q);
      ReplaceAround(p[1..], token, value, q);
      var rq := Replace(q, token, value);
      calc {
        Replace(s, token, value);
      == { ReplaceSkip(s, token, value); }
        [s[0]] + Replace(s[1..], token, value);
      ==
        [p[0]] + (p[1..] + value + rq);
      == { ConsRest(p, value, rq); }
        p + value + rq;
      }
    }
  }
}
