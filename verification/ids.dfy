/**
 * Row lookup by primary key, as `CRUDMixin.get_by_id` does it: the argument is
 * accepted only when it is a string of decimal digits or a number, and is then
 * normalised with Python's `int(...)` before the lookup.
 */
module Ids {
  import opened Options

  /**
   * The dynamically typed argument a caller may pass as `id`. A float is the
   * decimal `mantissa * 10^-exponent`; a bool is Python's `int` subclass.
   */
  datatype PyValue =
    | PyStr(text: string)
    | PyInt(n: int)
    | PyBool(b: bool)
    | PyFloat(mantissa: int, exponent: nat)
    | PyNone

  predicate IsDigit(c: char) {
    '0' <= c <= '9'
  }

  predicate AllDigits(s: string) {
    forall i | 0 <= i < |s| :: IsDigit(s[i])
  }

  /** `str.isdigit()`: non-empty and every character a digit. */
  predicate IsDigitString(s: string) {
    |s| > 0 && AllDigits(s)
  }

  function DigitValue(c: char): (d: nat)
    requires IsDigit(c)
    ensures d < 10
  {
    (c as int) - ('0' as int)
  }

  function DigitChar(d: nat): (c: char)
    requires d < 10
    ensures IsDigit(c) && DigitValue(c) == d
  {
    (('0' as int) + d) as char
  }

  /** `int(s)` on a string of decimal digits. */
  function ParseDigits(s: string): nat
    requires AllDigits(s)
  {
    if |s| == 0 then 0 else 10 * ParseDigits(s[..|s| - 1]) + DigitValue(s[|s| - 1])
  }

  /** `str(n)` for a non-negative integer: the shortest decimal spelling. */
  function ShowNat(n: nat): (s: string)
    ensures IsDigitString(s)
    ensures n > 0 ==> s[0] != '0'
  {
    if n < 10 then [DigitChar(n)] else ShowNat(n / 10) + [DigitChar(n % 10)]
  }

  /** Parsing reads back exactly the number that was printed. */
  lemma {:induction false} ParseShow(n: nat)
    ensures ParseDigits(ShowNat(n)) == n
  {
    var s := ShowNat(n);
    if n >= 10 {
      ParseShow(n / 10);
      assert s[..|s| - 1] == ShowNat(n / 10);
    }
  }

  /** A digit string that does not start with '0' denotes a positive number. */
  lemma {:induction false} ParsePositive(s: string)
    requires IsDigitString(s) && s[0] != '0'
    ensures ParseDigits(s) > 0
  {
    if |s| > 1 {
      ParsePositive(s[..|s| - 1]);
    }
  }

  /**
   * The other direction of the round trip: a canonical digit string (no
   * leading zero unless it is "0") is the printing of the number it denotes.
   */
  lemma {:induction false} ShowParse(s: string)
    requires IsDigitString(s) && (s[0] != '0' || |s| == 1)
    ensures ShowNat(ParseDigits(s)) == s
  {
    var n := ParseDigits(s);
    if |s| > 1 {
      var prefix := s[..|s| - 1];
      var d := DigitValue(s[|s| - 1]);
      ParsePositive(prefix);
      ShowParse(prefix);
      assert n / 10 == ParseDigits(prefix) && n % 10 == d;
      assert DigitChar(d) == s[|s| - 1];
      assert s == prefix + [s[|s| - 1]];
    } else {
      assert |s[..0]| == 0 && ParseDigits(s[..0]) == 0;
      assert n == DigitValue(s[0]);
    }
  }

  /** `int("007") == int("7")`: leading zeros do not change the key. */
  lemma {:induction false} LeadingZero(s: string)
    requires AllDigits(s)
    ensures AllDigits(['0'] + s)
    ensures ParseDigits(['0'] + s) == ParseDigits(s)
  {
    var t := ['0'] + s;
    if |s| > 0 {
      assert t[..|t| - 1] == ['0'] + s[..|s| - 1];
      LeadingZero(s[..|s| - 1]);
    }
  }

  function Pow10(e: nat): (p: nat)
    ensures p >= 1
  {
    if e == 0 then 1 else 10 * Pow10(e - 1)
  }

  /** Euclidean division of a non-negative number, stated without `%`. */
  lemma DivisionBounds(a: nat, p: nat)
    requires p >= 1
    ensures 0 <= a / p
    ensures (a / p) * p <= a < (a / p + 1) * p
  {
    var q := a / p;
    assert a == q * p + a % p;
    assert (q + 1) * p == q * p + p;
  }

  /** Bounds on a quotient, mirrored to the negative side. */
  lemma NegateBounds(q: int, p: int, a: int)
    requires q * p <= a < (q + 1) * p
    ensures (-q - 1) * p < -a <= (-q) * p
  {
    assert (-q - 1) * p == -((q + 1) * p);
    assert (-q) * p == -(q * p);
  }

  /**
   * `int(x)` on a float truncates toward zero, unlike Dafny's Euclidean `/`:
   * the result is the integer between zero and x that is nearest to x.
   */
  function TruncateTowardZero(mantissa: int, exponent: nat): (r: int)
    ensures mantissa >= 0 ==> 0 <= r && r * Pow10(exponent) <= mantissa < (r + 1) * Pow10(exponent)
    ensures mantissa < 0 ==> r <= 0 && (r - 1) * Pow10(exponent) < mantissa <= r * Pow10(exponent)
  {
    var p := Pow10(exponent);
    if mantissa >= 0 then
      DivisionBounds(mantissa, p);
      mantissa / p
    else
      var q := (-mantissa) / p;
      DivisionBounds(-mantissa, p);
      NegateBounds(q, p, -mantissa);
      -q
  }

  /**
   * The key `get_by_id` looks up, or None when it returns None without a
   * lookup: digit strings and numbers are accepted, everything else refused.
   */
  function NormaliseId(v: PyValue): (r: Option<int>)
    ensures v.PyStr? ==> (r.Some? <==> IsDigitString(v.text))
    ensures v.PyStr? && r.Some? ==> r.value >= 0
    ensures v.PyInt? ==> r == Some(v.n)
    ensures v.PyBool? ==> r == Some(if v.b then 1 else 0)
    ensures v.PyFloat? ==> r == Some(TruncateTowardZero(v.mantissa, v.exponent))
    ensures v.PyNone? ==> r.None?
  {
    match v
    case PyStr(text) => if IsDigitString(text) then Some(ParseDigits(text)) else None
    case PyInt(n) => Some(n)
    case PyBool(b) => Some(if b then 1 else 0)
    case PyFloat(m, e) => Some(TruncateTowardZero(m, e))
    case PyNone => None
  }

  /** `get_by_id` on a table whose rows are identified by the keys in `ids`. */
  function GetById(ids: set<int>, v: PyValue): (r: Option<int>)
    ensures r.Some? <==> NormaliseId(v).Some? && NormaliseId(v).value in ids
    ensures r.Some? ==> r.value == NormaliseId(v).value
  {
    match NormaliseId(v)
    case None => None
    case Some(k) => if k in ids then Some(k) else None
  }

  /**
   * The integer path segment of the current routes and the string path segment
   * of the legacy routes name the same row: printing a key and normalising the
   * text gives the key back, also with a leading zero ("07" names row 7).
   */
  lemma PathSpellingsAgree(n: nat)
    ensures NormaliseId(PyStr(ShowNat(n))) == Some(n)
    ensures NormaliseId(PyStr(ShowNat(n))) == NormaliseId(PyInt(n))
    ensures NormaliseId(PyStr(['0'] + ShowNat(n))) == Some(n)
  {
    ParseShow(n);
    LeadingZero(ShowNat(n));
  }

  /** A text with any non-digit (a sign, a decimal point, a space) is refused. */
  lemma RejectsNonDigit(text: string, i: int)
    requires 0 <= i < |text| && !IsDigit(text[i])
    ensures NormaliseId(PyStr(text)) == None
  {
  }
}
