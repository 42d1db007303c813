/** Decimal numerals: their value, their canonical spelling, and the
    overflow-checked loop that reads them. */
module Decimal {
  import opened Base

  const ZERO: byte := 48
  const NINE: byte := 57

  predicate IsDigit(b: byte) {
    ZERO <= b <= NINE
  }

  /** The digits are '0' to '9', and each stands for its distance from '0'. */
  lemma DigitBytes(b: byte)
    ensures IsDigit(b) <==> '0' <= b as char <= '9'
    ensures IsDigit(b) ==> Digit(b) == b as int - '0' as int
  {
  }

  predicate AllDigits(s: seq<byte>) {
    forall i :: 0 <= i < |s| ==> IsDigit(s[i])
  }

  function Digit(b: byte): (d: nat)
    requires IsDigit(b)
    ensures d < 10
  {
    (b - ZERO) as nat
  }

  /** The number a digit string denotes, of any length. */
  function Value(s: seq<byte>): nat
    requires AllDigits(s)
  {
    if s == [] then 0 else 10 * Value(s[..|s| - 1]) + Digit(s[|s| - 1])
  }

  /** The number's decimal spelling, without leading zeros. */
  function Spell(n: nat): (s: seq<byte>)
    ensures |s| >= 1 && AllDigits(s)
  {
    if n < 10 then [ZERO + n as byte] else Spell(n / 10) + [ZERO + (n % 10) as byte]
  }

  /** A digit string without its leading zeros. */
  function Strip(s: seq<byte>): (t: seq<byte>)
    ensures |t| <= |s|
  {
    if |s| > 1 && s[0] == ZERO then Strip(s[1..]) else s
  }

  lemma {:induction false} ValueOfSpell(n: nat)
    ensures Value(Spell(n)) == n
    ensures Strip(Spell(n)) == Spell(n)
  {
    if n >= 10 {
      ValueOfSpell(n / 10);
      var s := Spell(n);
      assert s[..|s| - 1] == Spell(n / 10);
      assert |Spell(n / 10)| > 1 ==> Spell(n / 10)[0] != ZERO;
      if |Spell(n / 10)| == 1 {
        assert Value(Spell(n / 10)) == 10 * Value(Spell(n / 10)[..0]) + Digit(Spell(n / 10)[0]);
      }
    }
  }

  lemma {:induction false} LeadingZero(s: seq<byte>)
    requires AllDigits(s)
    ensures Value([ZERO] + s) == Value(s)
  {
    if s == [] {
      assert ([ZERO] + s)[..0] == [];
    } else {
      LeadingZero(s[..|s| - 1]);
      assert ([ZERO] + s)[..|s|] == [ZERO] + s[..|s| - 1];
    }
  }

  /** Spelling a token's value gives back the token, less its leading zeros. */
  lemma {:induction false} SpellOfValue(s: seq<byte>)
    requires |s| >= 1 && AllDigits(s)
    ensures Spell(Value(s)) == Strip(s)
  {
    if |s| == 1 {
      assert s[..0] == [];
      assert Value(s) == Digit(s[0]);
    } else if s[0] == ZERO {
      LeadingZero(s[1..]);
      assert [ZERO] + s[1..] == s;
      SpellOfValue(s[1..]);
    } else {
      var t := s[..|s| - 1];
      SpellOfValue(t);
      assert Strip(t) == t;
      NonZero(t);
      assert s == t + [s[|s| - 1]];
    }
  }

  lemma {:induction false} NonZero(s: seq<byte>)
    requires |s| >= 1 && AllDigits(s) && s[0] != ZERO
    ensures Value(s) >= 1
  {
    if |s| == 1 {
      assert s[..0] == [];
    } else {
      NonZero(s[..|s| - 1]);
    }
  }

  function Pow10(k: nat): (p: nat)
    ensures p >= 1
  {
    if k == 0 then 1 else 10 * Pow10(k - 1)
  }

  /** A number has at most `k` digits exactly when it is below ten to the `k`. */
  lemma {:induction false} SpellLength(n: nat, k: nat)
    requires k >= 1
    ensures |Spell(n)| <= k <==> n < Pow10(k)
  {
    if k == 1 {
      assert Pow10(1) == 10 * Pow10(0);
    } else if n >= 10 {
      SpellLength(n / 10, k - 1);
    } else {
      assert Pow10(k - 1) >= 1;
    }
  }

  /** A longer digit string denotes a number at least as large. */
  lemma {:induction false} ValueGrows(s: seq<byte>, k: nat)
    requires AllDigits(s) && k <= |s|
    ensures Value(s[..k]) <= Value(s)
    decreases |s|
  {
    if k == |s| {
      assert s[..k] == s;
    } else {
      ValueGrows(s[..|s| - 1], k);
      assert s[..|s| - 1][..k] == s[..k];
    }
  }

  /** Positional notation: what precedes counts for a power of ten. */
  lemma {:induction false} ValueAppend(s: seq<byte>, t: seq<byte>)
    requires AllDigits(s) && AllDigits(t)
    ensures AllDigits(s + t) && Value(s + t) == Value(s) * Pow10(|t|) + Value(t)
    decreases |t|
  {
    if t == [] {
      assert s + t == s;
    } else {
      var init := t[..|t| - 1];
      ValueAppend(s, init);
      assert (s + t)[..|s + t| - 1] == s + init;
      assert Value(s) * (10 * Pow10(|init|)) == 10 * (Value(s) * Pow10(|init|));
    }
  }

  function CheckedMul(limit: nat, a: nat, b: nat): Option<nat> {
    if a * b < limit then Some(a * b) else None
  }

  function CheckedAdd(limit: nat, a: nat, b: nat): Option<nat> {
    if a + b < limit then Some(a + b) else None
  }

  /** A token reads as a number when it is all digits and its value fits. */
  ghost function ReadNumber(token: seq<byte>, limit: nat): Option<nat> {
    if AllDigits(token) && Value(token) < limit then Some(Value(token)) else None
  }

  /** The accumulating loop of the number readers, for either integer width. */
  method ReadDigits(token: seq<byte>, limit: nat) returns (r: Option<nat>)
    requires limit > 0
    ensures r == ReadNumber(token, limit)
  {
    var acc := 0;
    var i := 0;
    while i < |token|
      invariant i <= |token|
      invariant AllDigits(token[..i])
      invariant acc == Value(token[..i]) < limit
    {
      assert token[..i + 1][..i] == token[..i];
      if !IsDigit(token[i]) {
        return None;
      }
      ghost var next := 10 * acc + Digit(token[i]);
      assert next == Value(token[..i + 1]);
      if AllDigits(token) {
        ValueGrows(token, i + 1);
      }
      var product := CheckedMul(limit, acc, 10);
      if product.None? {
        return None;
      }
      var sum := CheckedAdd(limit, product.value, Digit(token[i]));
      if sum.None? {
        return None;
      }
      acc := sum.value;
      i := i + 1;
    }
    assert token[..i] == token;
    return Some(acc);
  }
}
