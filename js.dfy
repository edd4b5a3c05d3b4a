/** The JavaScript built-ins the inventory pages rely on, restricted to ASCII text:
    null, white space, `toLowerCase`, `includes`, `trim`, `parseInt`, `parseFloat`
    and `toString` of the numbers the pages print into form fields. */
module Js {

  /** A nullable value: `None` is JavaScript's `null` (or `undefined`). */
  datatype Option<+T> = None | Some(value: T) {
    /** `x || fallback` for a value that is never falsy itself. */
    function GetOr(fallback: T): T {
      match this
      case Some(v) => v
      case None => fallback
    }
  }

  // ---------------------------------------------------------------------------
  // Characters

  /** The ASCII members of the `\s` class (and of what `trim` and `parseInt` skip):
      tab, line feed, vertical tab, form feed, carriage return and space. */
  predicate IsSpace(c: char) {
    c == ' ' || 9 <= c as int <= 13
  }

  predicate IsUpper(c: char) {
    'A' <= c <= 'Z'
  }

  predicate IsDigit(c: char) {
    '0' <= c <= '9'
  }

  /** `toLowerCase` on one ASCII character. */
  function LowerChar(c: char): (r: char)
    ensures !IsUpper(r)
    ensures IsSpace(r) <==> IsSpace(c)
    ensures !IsUpper(c) ==> r == c
  {
    if IsUpper(c) then (c as int + 32) as char else c
  }

  /** `s.toLowerCase()`, with ASCII case mapping. */
  function Lower(s: string): (r: string)
    ensures |r| == |s|
    ensures forall i :: 0 <= i < |s| ==> r[i] == LowerChar(s[i])
  {
    seq(|s|, i requires 0 <= i < |s| => LowerChar(s[i]))
  }

  predicate IsLowerCase(s: string) {
    forall i :: 0 <= i < |s| ==> !IsUpper(s[i])
  }

  lemma LowerIsLowerCase(s: string)
    ensures IsLowerCase(Lower(s))
    ensures IsLowerCase(s) ==> Lower(s) == s
    ensures Lower(Lower(s)) == Lower(s)
  {
  }

  lemma LowerAppend(a: string, b: string)
    ensures Lower(a + b) == Lower(a) + Lower(b)
  {
  }

  // ---------------------------------------------------------------------------
  // includes

  /** `hay.includes(needle)`: needle occurs in hay as a block of consecutive
      characters. The empty needle occurs in every string. */
  predicate Includes(hay: string, needle: string)
    decreases |hay|
  {
    needle <= hay || (hay != [] && Includes(hay[1..], needle))
  }

  /** An occurrence of needle in hay starting at position i. */
  ghost predicate OccursAt(hay: string, needle: string, i: int) {
    0 <= i && i + |needle| <= |hay| && hay[i..i + |needle|] == needle
  }

  /** An occurrence at some position makes `Includes` hold. */
  lemma {:induction false} OccurrenceIsIncluded(hay: string, needle: string, i: int)
    requires OccursAt(hay, needle, i)
    ensures Includes(hay, needle)
    decreases i
  {
    if i == 0 {
      assert needle == hay[..|needle|];
    } else {
      assert OccursAt(hay[1..], needle, i - 1) by {
        assert hay[1..][i - 1..i - 1 + |needle|] == hay[i..i + |needle|];
      }
      OccurrenceIsIncluded(hay[1..], needle, i - 1);
    }
  }

  /** `Includes` finds an occurrence at some position. */
  lemma {:induction false} IncludedOccurs(hay: string, needle: string)
    requires Includes(hay, needle)
    ensures exists i :: OccursAt(hay, needle, i)
    decreases |hay|
  {
    if needle <= hay {
      assert OccursAt(hay, needle, 0);
    } else {
      IncludedOccurs(hay[1..], needle);
      var i :| OccursAt(hay[1..], needle, i);
      assert OccursAt(hay, needle, i + 1) by {
        assert hay[i + 1..i + 1 + |needle|] == hay[1..][i..i + |needle|];
      }
    }
  }

  /** `Includes` agrees with the positional definition of a substring. */
  lemma IncludesIffOccurs(hay: string, needle: string)
    ensures Includes(hay, needle) <==> exists i :: OccursAt(hay, needle, i)
  {
    if Includes(hay, needle) {
      IncludedOccurs(hay, needle);
    } else {
      forall i | OccursAt(hay, needle, i) ensures false {
        OccurrenceIsIncluded(hay, needle, i);
      }
    }
  }

  /** A string occurs only in strings at least as long. */
  lemma {:induction false} IncludesFits(hay: string, needle: string)
    requires Includes(hay, needle)
    ensures |needle| <= |hay|
  {
    if !(needle <= hay) {
      IncludesFits(hay[1..], needle);
    }
  }

  lemma IncludesEmpty(hay: string)
    ensures Includes(hay, "")
  {
  }

  // ---------------------------------------------------------------------------
  // trim

  function TrimStart(s: string): (r: string)
    ensures |r| <= |s| && r == s[|s| - |r|..]
    ensures r != [] ==> !IsSpace(r[0])
  {
    if s != [] && IsSpace(s[0]) then TrimStart(s[1..]) else s
  }

  function TrimEnd(s: string): (r: string)
    ensures |r| <= |s| && r == s[..|r|]
    ensures r != [] ==> !IsSpace(r[|r| - 1])
  {
    if s != [] && IsSpace(s[|s| - 1]) then TrimEnd(s[..|s| - 1]) else s
  }

  /** `s.trim()`. */
  function Trim(s: string): string {
    TrimEnd(TrimStart(s))
  }

  /** Every character is white space (the empty string included). */
  predicate IsBlank(s: string) {
    forall i :: 0 <= i < |s| ==> IsSpace(s[i])
  }

  /** A non-empty string is blank exactly when its head is white space and its tail is blank. */
  lemma BlankCons(s: string)
    requires s != []
    ensures IsBlank(s) <==> IsSpace(s[0]) && IsBlank(s[1..])
  {
    if IsSpace(s[0]) && IsBlank(s[1..]) {
      forall i | 0 <= i < |s| ensures IsSpace(s[i]) {
        if i > 0 { assert s[i] == s[1..][i - 1]; }
      }
    }
  }

  lemma {:induction false} TrimStartEmptyIffBlank(s: string)
    ensures TrimStart(s) == [] <==> IsBlank(s)
  {
    if s != [] {
      BlankCons(s);
      if IsSpace(s[0]) {
        assert TrimStart(s) == TrimStart(s[1..]);
        TrimStartEmptyIffBlank(s[1..]);
      } else {
        assert TrimStart(s) == s;
      }
    }
  }

  /** `!s.trim()` holds exactly of the blank strings. */
  lemma TrimEmptyIffBlank(s: string)
    ensures Trim(s) == [] <==> IsBlank(s)
  {
    TrimStartEmptyIffBlank(s);
    var t := TrimStart(s);
    if t != [] {
      assert TrimEnd(t) != [] by {
        if TrimEnd(t) == [] {
          TrimEndEmptyIfBlank(t);
        }
      }
    }
  }

  lemma {:induction false} TrimEndEmptyIfBlank(t: string)
    requires TrimEnd(t) == []
    ensures IsBlank(t)
  {
    if t != [] {
      assert IsSpace(t[|t| - 1]);
      TrimEndEmptyIfBlank(t[..|t| - 1]);
      forall i | 0 <= i < |t| ensures IsSpace(t[i]) {
        if i < |t| - 1 { assert t[i] == t[..|t| - 1][i]; }
      }
    }
  }

  // ---------------------------------------------------------------------------
  // Decimal digits

  function DigitChar(d: nat): (c: char)
    requires d < 10
    ensures IsDigit(c)
  {
    ('0' as int + d) as char
  }

  function DigitValue(c: char): (d: nat)
    requires IsDigit(c)
    ensures d < 10
  {
    c as int - '0' as int
  }

  predicate AllDigits(s: string) {
    forall i :: 0 <= i < |s| ==> IsDigit(s[i])
  }

  /** `n.toString()` for a non-negative integer: its decimal digits, no leading zero. */
  function NatToString(n: nat): (r: string)
    ensures |r| > 0 && AllDigits(r)
    ensures r[0] == '0' ==> n == 0
  {
    if n < 10 then [DigitChar(n)] else NatToString(n / 10) + [DigitChar(n % 10)]
  }

  /** The number a string of decimal digits denotes. */
  function DigitsValue(s: string): nat
    requires AllDigits(s)
  {
    if s == [] then 0 else DigitsValue(s[..|s| - 1]) * 10 + DigitValue(s[|s| - 1])
  }

  lemma {:induction false} DigitsValueOfNatToString(n: nat)
    ensures DigitsValue(NatToString(n)) == n
  {
    var s := NatToString(n);
    if n >= 10 {
      assert s[..|s| - 1] == NatToString(n / 10);
      DigitsValueOfNatToString(n / 10);
    } else {
      assert s[..|s| - 1] == [];
    }
  }

  /** Distinct numbers print differently. */
  lemma NatToStringInjective(m: nat, n: nat)
    requires NatToString(m) == NatToString(n)
    ensures m == n
  {
    DigitsValueOfNatToString(m);
    DigitsValueOfNatToString(n);
  }

  /** The length of the longest prefix of s made of digits. */
  function DigitRun(s: string): (k: nat)
    ensures k <= |s| && AllDigits(s[..k])
    ensures k < |s| ==> !IsDigit(s[k])
  {
    if s != [] && IsDigit(s[0]) then
      var k := 1 + DigitRun(s[1..]);
      assert s[..k] == [s[0]] + s[1..][..k - 1];
      k
    else 0
  }

  lemma {:induction false} DigitRunOfDigitsThen(a: string, b: string)
    requires AllDigits(a)
    requires b == [] || !IsDigit(b[0])
    ensures DigitRun(a + b) == |a|
  {
    if a != [] {
      assert (a + b)[1..] == a[1..] + b;
      DigitRunOfDigitsThen(a[1..], b);
    } else {
      assert a + b == b;
    }
  }

  /** The text after leading white space and an optional sign, and whether the sign was '-'. */
  function Unsigned(s: string): (string, bool) {
    var t := TrimStart(s);
    if t != [] && (t[0] == '-' || t[0] == '+') then (t[1..], t[0] == '-') else (t, false)
  }

  /** `parseInt(s)` with a decimal radix: leading white space and one sign are skipped and
      the longest run of digits after them is read; `None` is NaN (no digit there). */
  function ParseInt(s: string): (r: Option<int>)
    ensures r.None? <==> DigitRun(Unsigned(s).0) == 0
  {
    var (u, negative) := Unsigned(s);
    var k := DigitRun(u);
    if k == 0 then None
    else
      var v: int := DigitsValue(u[..k]);
      Some(if negative then -v else v)
  }

  /** Every printed non-negative integer parses back to itself. */
  lemma ParseIntOfNatToString(n: nat)
    ensures ParseInt(NatToString(n)) == Some(n)
  {
    var s := NatToString(n);
    assert Unsigned(s) == (s, false);
    DigitRunOfDigitsThen(s, []);
    assert s + [] == s;
    assert s[..|s|] == s;
    DigitsValueOfNatToString(n);
  }

  // ---------------------------------------------------------------------------
  // Prices as integer cents

  /** The cents named by the first two digits after the decimal point; further digits are dropped. */
  function FractionCents(f: string): (c: nat)
    requires AllDigits(f)
    ensures c < 100
  {
    (if |f| >= 1 then DigitValue(f[0]) * 10 else 0) + (if |f| >= 2 then DigitValue(f[1]) else 0)
  }

  /** rest begins with '.' and a digit. */
  predicate FractionFollows(rest: string) {
    |rest| >= 2 && rest[0] == '.' && IsDigit(rest[1])
  }

  /** The amount of cents an unsigned decimal text starts with: integer digits and an
      optional '.' with fraction digits, of which the first two count. */
  function UnsignedCents(u: string): (r: Option<nat>)
    ensures r.None? <==> DigitRun(u) == 0 && !FractionFollows(u[DigitRun(u)..])
  {
    var k := DigitRun(u);
    var rest := u[k..];
    var f := if rest != [] && rest[0] == '.' then DigitRun(rest[1..]) else 0;
    if k == 0 && f == 0 then None
    else Some(DigitsValue(u[..k]) * 100 + (if f > 0 then FractionCents(rest[1..][..f]) else 0))
  }

  /** `parseFloat(s)` read as an amount of cents: white space, one sign, then an unsigned
      decimal. `None` is NaN. */
  function ParsePrice(s: string): (r: Option<int>)
    ensures r.None? <==> UnsignedCents(Unsigned(s).0).None?
  {
    var (u, negative) := Unsigned(s);
    match UnsignedCents(u)
    case None => None
    case Some(c) => Some(if negative then -(c as int) else c as int)
  }

  /** `(cents / 100).toString()`: the shortest decimal text of the amount, with no
      trailing zero in the fraction and no '.' for whole amounts. */
  function PriceText(cents: int): (r: string)
    ensures r != []
  {
    (if cents < 0 then "-" else "") + AmountText(if cents < 0 then -cents else cents)
  }

  /** The whole part and the fraction of a non-negative amount of cents. */
  function AmountText(a: nat): (r: string)
    ensures r != []
  {
    NatToString(a / 100) + FractionText(a % 100)
  }

  function FractionText(frac: nat): (r: string)
    requires frac < 100
    ensures r == [] || (r[0] == '.' && |r| >= 2 && AllDigits(r[1..]))
  {
    if frac == 0 then ""
    else if frac % 10 == 0 then ['.', DigitChar(frac / 10)]
    else ['.', DigitChar(frac / 10), DigitChar(frac % 10)]
  }

  lemma {:induction false} UnsignedCentsOfText(whole: nat, frac: nat)
    requires frac < 100
    ensures UnsignedCents(NatToString(whole) + FractionText(frac)) == Some(whole * 100 + frac)
    ensures IsDigit((NatToString(whole) + FractionText(frac))[0])
  {
    var w := NatToString(whole);
    var ft := FractionText(frac);
    var u := w + ft;
    DigitRunOfDigitsThen(w, ft);
    assert u[..|w|] == w;
    assert u[|w|..] == ft;
    DigitsValueOfNatToString(whole);
    if ft != [] {
      DigitRunOfDigitsThen(ft[1..], []);
      assert ft[1..] + [] == ft[1..];
      assert ft[1..][..|ft| - 1] == ft[1..];
    }
  }

  lemma UnsignedOfSigned(negative: bool, u: string)
    requires u != [] && IsDigit(u[0])
    ensures Unsigned((if negative then "-" else "") + u) == (u, negative)
  {
    var s := (if negative then "-" else "") + u;
    assert TrimStart(s) == s;
    if negative {
      assert s[1..] == u;
    } else {
      assert s == u;
    }
  }

  /** A sign followed by an unsigned amount that starts with a digit parses to the signed amount. */
  lemma ParsePriceOfSigned(negative: bool, u: string, c: nat)
    requires u != [] && IsDigit(u[0]) && UnsignedCents(u) == Some(c)
    ensures ParsePrice((if negative then "-" else "") + u) == Some(if negative then -(c as int) else c as int)
  {
    UnsignedOfSigned(negative, u);
  }

  lemma UnsignedCentsOfAmount(a: nat)
    ensures UnsignedCents(AmountText(a)) == Some(a)
    ensures IsDigit(AmountText(a)[0])
  {
    var whole, frac := a / 100, a % 100;
    assert whole * 100 + frac == a;
    UnsignedCentsOfText(whole, frac);
  }

  /** Every price the form prints parses back to the same number of cents. */
  lemma ParsePriceOfPriceText(cents: int)
    ensures ParsePrice(PriceText(cents)) == Some(cents)
  {
    var a: nat := if cents < 0 then -cents else cents;
    var s := PriceText(cents);
    assert s == (if cents < 0 then "-" else "") + AmountText(a);
    UnsignedCentsOfAmount(a);
    ParsePriceOfSigned(cents < 0, AmountText(a), a);
  }
}
