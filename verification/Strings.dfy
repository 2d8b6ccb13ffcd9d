/** Byte-wise string comparison and decimal text, as Go's `<` on strings and package strconv define them. */
module Strings {

  datatype Option<+T> = None | Some(value: T)

  /** Go's `a < b` on strings: the first differing position decides, a proper prefix comes first. */
  predicate Less(a: string, b: string) {
    |b| > 0 && (|a| == 0 || a[0] < b[0] || (a[0] == b[0] && Less(a[1..], b[1..])))
  }

  lemma {:induction false} LessIrreflexive(a: string)
    ensures !Less(a, a)
  {
    if |a| > 0 { LessIrreflexive(a[1..]); }
  }

  lemma {:induction false} LessTransitive(a: string, b: string, c: string)
    requires Less(a, b) && Less(b, c)
    ensures Less(a, c)
  {
    if |a| > 0 && a[0] == b[0] == c[0] { LessTransitive(a[1..], b[1..], c[1..]); }
  }

  lemma {:induction false} LessTotal(a: string, b: string)
    ensures Less(a, b) || Less(b, a) || a == b
  {
    if |a| > 0 && |b| > 0 && a[0] == b[0] {
      LessTotal(a[1..], b[1..]);
      assert a == [a[0]] + a[1..] && b == [b[0]] + b[1..];
    }
  }

  /** The first difference decides, and a proper prefix comes first. */
  lemma {:induction false} LessAtDifference(a: string, b: string)
    ensures Less(a, b) <==> exists k ::
      0 <= k <= |a| && k < |b| && a[..k] == b[..k] && (k == |a| || a[k] < b[k])
  {
    if |a| > 0 && |b| > 0 && a[0] == b[0] {
      LessAtDifference(a[1..], b[1..]);
      var s, t := a[1..], b[1..];
      if k :| 0 <= k <= |s| && k < |t| && s[..k] == t[..k] && (k == |s| || s[k] < t[k]) {
        assert a[..k + 1] == [a[0]] + a[1..][..k] && b[..k + 1] == [b[0]] + b[1..][..k];
      }
      if k :| 0 <= k <= |a| && k < |b| && a[..k] == b[..k] && (k == |a| || a[k] < b[k]) {
        assert k > 0;
        assert a[1..][..k - 1] == a[..k][1..] && b[1..][..k - 1] == b[..k][1..];
      }
    } else {
      assert a[..0] == b[..0];
      assert forall k :: 0 < k <= |a| && k <= |b| ==> a[..k][0] == a[0] && b[..k][0] == b[0];
    }
  }

  predicate IsDigit(c: char) { '0' <= c <= '9' }

  predicate AllDigits(s: string) { forall i :: 0 <= i < |s| ==> IsDigit(s[i]) }

  function DigitsValue(s: string): nat
    requires AllDigits(s)
  {
    if |s| == 0 then 0 else DigitsValue(s[..|s| - 1]) * 10 + (s[|s| - 1] as int - '0' as int)
  }

  function Digits(n: nat): (s: string)
    ensures |s| > 0 && AllDigits(s) && DigitsValue(s) == n
  {
    var last := [(n % 10 + '0' as int) as char];
    if n < 10 then assert last[..0] == []; last
    else
      var rest := Digits(n / 10);
      assert (rest + last)[..|rest|] == rest;
      rest + last
  }

  /** strconv.Itoa */
  function Itoa(n: int): (s: string)
    ensures forall i :: 0 <= i < |s| ==> s[i] == '-' || IsDigit(s[i])
  {
    if n < 0 then "-" + Digits(-n) else Digits(n)
  }

  /** The base-10 reading of strconv.ParseInt, before its range check: an optional sign, then at least one digit. */
  function ParseDecimal(s: string): Option<int> {
    if |s| > 0 && (s[0] == '-' || s[0] == '+') then
      if |s| > 1 && AllDigits(s[1..]) then
        var magnitude: int := DigitsValue(s[1..]);
        Some(if s[0] == '-' then -magnitude else magnitude)
      else None
    else if |s| > 0 && AllDigits(s) then Some(DigitsValue(s))
    else None
  }

  /** strconv.ParseInt(s, 10, 32) */
  function ParseInt32(s: string): Option<int> {
    var n := ParseDecimal(s);
    if n.Some? && -0x8000_0000 <= n.value < 0x8000_0000 then n else None
  }

  /** Decimal text reads back as its number, and in 32 bits exactly when the number fits. */
  lemma ParseItoa(n: int)
    ensures ParseDecimal(Itoa(n)) == Some(n)
    ensures ParseInt32(Itoa(n)) == if -0x8000_0000 <= n < 0x8000_0000 then Some(n) else None
  {
    if n < 0 {
      assert Itoa(n)[1..] == Digits(-n);
    } else {
      assert IsDigit(Digits(n)[0]);
    }
  }

  /** What counts as a number: an optional sign and digits, nothing else. */
  lemma ParseExamples()
    ensures ParseDecimal("+45") == Some(45) && ParseDecimal("-045") == Some(-45)
    ensures ParseDecimal("") == ParseDecimal("-") == ParseDecimal("4x") == ParseDecimal("--4") == None
  {
    assert "45"[..1] == "4" && "4"[..0] == [] && "045"[..2] == "04" && "04"[..1] == "0" && "0"[..0] == [];
    assert DigitsValue("4") == 4 && DigitsValue("45") == 45;
    assert DigitsValue("0") == 0 && DigitsValue("04") == 4 && DigitsValue("045") == 45;
    assert "+45"[1..] == "45" && "-045"[1..] == "045" && "--4"[1..] == "-4";
    assert !IsDigit("4x"[1]) && !IsDigit("-4"[0]);
  }

  lemma ItoaInjective(m: int, n: int)
    requires Itoa(m) == Itoa(n)
    ensures m == n
  {
    ParseItoa(m);
    ParseItoa(n);
  }
}
