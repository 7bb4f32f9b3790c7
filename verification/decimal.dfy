/**
 * Decimal text of product ids. The cart stores every product id under the key
 * `str(product_id)`, and the cart view turns keys back into ids with `int(key)`.
 * `Show` is `str` on a non-negative integer; `Parse` is `int` on a string of
 * ASCII digits (leading zeros allowed, as Python allows them).
 */
module Decimal {
  import opened Wrappers

  predicate IsDigit(ch: char) {
    '0' <= ch <= '9'
  }

  predicate AllDigits(s: string) {
    forall i :: 0 <= i < |s| ==> IsDigit(s[i])
  }

  /** The text `str(n)` produces: digits only, and no leading zero unless it is "0". */
  predicate Canonical(s: string) {
    |s| > 0 && AllDigits(s) && (s[0] == '0' ==> |s| == 1)
  }

  function DigitChar(d: nat): (ch: char)
    requires d < 10
    ensures IsDigit(ch) && DigitValue(ch) == d
  {
    '0' + d as char
  }

  function DigitValue(ch: char): (d: nat)
    requires IsDigit(ch)
    ensures d < 10
  {
    (ch - '0') as nat
  }

  /** `str(n)` for a non-negative integer n. */
  function Show(n: nat): (s: string)
    ensures Canonical(s)
    ensures n < 10 <==> |s| == 1
  {
    if n < 10 then [DigitChar(n)] else Show(n / 10) + [DigitChar(n % 10)]
  }

  /** Value of a digit string, most significant digit first. */
  function DigitsValue(s: string): nat
    requires AllDigits(s)
  {
    if s == [] then 0 else DigitsValue(s[..|s| - 1]) * 10 + DigitValue(s[|s| - 1])
  }

  /** `int(s)`: the value of a non-empty digit string; None where `int` would not give a product id. */
  function Parse(s: string): (r: Option<nat>)
    ensures r.Some? <==> |s| > 0 && AllDigits(s)
  {
    if |s| > 0 && AllDigits(s) then Some(DigitsValue(s)) else None
  }

  /** Parsing the text of an id gives the id back: `int(str(n)) == n`. */
  lemma {:induction false} ParseShow(n: nat)
    ensures Parse(Show(n)) == Some(n)
  {
    var s := Show(n);
    if n < 10 {
      assert s[..|s| - 1] == [];
      assert DigitsValue(s) == DigitValue(DigitChar(n));
    } else {
      ParseShow(n / 10);
      assert s[..|s| - 1] == Show(n / 10);
    }
  }

  /** A digit string that does not start with '0' has a positive value. */
  lemma {:induction false} LeadingNonZero(s: string)
    requires |s| > 0 && AllDigits(s) && s[0] != '0'
    ensures DigitsValue(s) >= 1
  {
    if |s| > 1 {
      LeadingNonZero(s[..|s| - 1]);
    }
  }

  /** Every canonical key is the text of the id it parses to: `str(int(k)) == k`. */
  lemma {:induction false} ShowParse(s: string)
    requires Canonical(s)
    ensures Parse(s).Some? && Show(Parse(s).value) == s
  {
    if |s| == 1 {
      assert s[..0] == [];
      assert Show(DigitsValue(s)) == [s[0]];
    } else {
      var p := s[..|s| - 1];
      assert Canonical(p);
      ShowParse(p);
      LeadingNonZero(p);
      var n := DigitsValue(s);
      assert n / 10 == DigitsValue(p) && n % 10 == DigitValue(s[|s| - 1]);
      assert Show(n) == p + [s[|s| - 1]];
      assert p + [s[|s| - 1]] == s;
    }
  }

  /** Distinct ids have distinct keys, so one cart line never stands for two products. */
  lemma ShowInjective(m: nat, n: nat)
    ensures Show(m) == Show(n) <==> m == n
  {
    ParseShow(m);
    ParseShow(n);
  }

  /** A key denotes id n exactly when it is the text of n, for keys `str` produced. */
  lemma KeyDenotes(s: string, n: nat)
    requires Canonical(s)
    ensures Parse(s) == Some(n) <==> s == Show(n)
  {
    ShowParse(s);
    ParseShow(n);
  }
}
