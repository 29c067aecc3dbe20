/** The order of token ids: numeric for decimal ids on EVM chains, textual otherwise. */
module TokenOrder {
  import opened Arithmetic
  import opened Wrappers
  import opened Sorting
  import opened Text

  datatype Ordering = Less | Equal | Greater

  function CompareNat(x: nat, y: nat): Ordering {
    if x < y then Less else if x == y then Equal else Greater
  }

  /** Lexicographic comparison. */
  function CompareText(x: string, y: string): Ordering {
    if x == [] && y == [] then Equal
    else if x == [] then Less
    else if y == [] then Greater
    else if x[0] != y[0] then CompareNat(x[0] as nat, y[0] as nat)
    else CompareText(x[1..], y[1..])
  }

  /** It is the order of texts. */
  lemma {:induction false} CompareTextMeans(x: string, y: string)
    ensures CompareText(x, y) == if x == y then Equal else if Before(x, y) then Less else Greater
    ensures CompareText(x, y).Greater? <==> Before(y, x)
  {
    hide Before;
    if x != [] && y != [] && x[0] == y[0] {
      CompareTextMeans(x[1..], y[1..]);
      BeforeTail(x, y);
      BeforeTail(y, x);
      assert x == [x[0]] + x[1..] && y == [y[0]] + y[1..];
    } else {
      BeforeHead(x, y);
      BeforeHead(y, x);
    }
  }

  predicate IsDigit(c: char) {
    '0' <= c <= '9'
  }

  predicate AllDigits(s: string) {
    forall i :: 0 <= i < |s| ==> IsDigit(s[i])
  }

  /** `trim_start_matches('0')` */
  function TrimZeros(s: string): string {
    if s != [] && s[0] == '0' then TrimZeros(s[1..]) else s
  }

  /** `decimal_magnitude` */
  function DecimalMagnitude(token: string): Option<string> {
    var trimmed := Trim(token);
    if trimmed == [] || !AllDigits(trimmed) then None
    else if TrimZeros(trimmed) == [] then Some("0") else Some(TrimZeros(trimmed))
  }

  /** `compare_token_ids` */
  function CompareTokenIds(left: string, right: string, isEvm: bool): Ordering {
    if isEvm then
      match (DecimalMagnitude(left), DecimalMagnitude(right))
      case (Some(a), Some(b)) => if |a| != |b| then CompareNat(|a|, |b|) else CompareText(a, b)
      case (Some(_), None) => Less
      case (None, Some(_)) => Greater
      case (None, None) => CompareText(left, right)
    else CompareText(left, right)
  }

  predicate TokenLeq(left: string, right: string, isEvm: bool) {
    !CompareTokenIds(left, right, isEvm).Greater?
  }

  // ----- a total preorder

  function Reverse(o: Ordering): Ordering {
    match o
    case Less => Greater
    case Equal => Equal
    case Greater => Less
  }

  lemma {:induction false} TextReversed(x: string, y: string)
    ensures CompareText(y, x) == Reverse(CompareText(x, y))
    ensures CompareText(x, y).Equal? <==> x == y
  {
    if x != [] && y != [] && x[0] == y[0] {
      TextReversed(x[1..], y[1..]);
      assert x == [x[0]] + x[1..] && y == [y[0]] + y[1..];
    }
  }

  lemma {:induction false} TextTransitive(x: string, y: string, z: string)
    requires !CompareText(x, y).Greater? && !CompareText(y, z).Greater?
    ensures !CompareText(x, z).Greater?
  {
    if x != [] && y != [] && z != [] && x[0] == y[0] && y[0] == z[0] {
      TextTransitive(x[1..], y[1..], z[1..]);
    }
  }

  lemma TokenReversed(x: string, y: string, isEvm: bool)
    ensures CompareTokenIds(y, x, isEvm) == Reverse(CompareTokenIds(x, y, isEvm))
  {
    hide DecimalMagnitude, CompareText;
    TextReversed(x, y);
    if DecimalMagnitude(x).Some? && DecimalMagnitude(y).Some? {
      TextReversed(DecimalMagnitude(x).value, DecimalMagnitude(y).value);
    }
  }

  lemma TokenTransitive(x: string, y: string, z: string, isEvm: bool)
    requires TokenLeq(x, y, isEvm) && TokenLeq(y, z, isEvm)
    ensures TokenLeq(x, z, isEvm)
  {
    hide DecimalMagnitude, CompareText;
    var a, b, c := DecimalMagnitude(x), DecimalMagnitude(y), DecimalMagnitude(z);
    if isEvm && a.Some? && b.Some? && c.Some? && |a.value| == |b.value| == |c.value| {
      TextTransitive(a.value, b.value, c.value);
    } else if !isEvm || (a.None? && b.None? && c.None?) {
      TextTransitive(x, y, z);
    }
  }

  /** The comparator is consistent: reflexive, total and transitive, on any strings. */
  lemma TokenOrderTotal(isEvm: bool)
    ensures TotalPreorder((x: string, y: string) => TokenLeq(x, y, isEvm))
  {
    hide CompareTokenIds;
    forall x: string, y: string ensures TokenLeq(x, y, isEvm) || TokenLeq(y, x, isEvm) {
      TokenReversed(x, y, isEvm);
    }
    forall x: string, y: string, z: string | TokenLeq(x, y, isEvm) && TokenLeq(y, z, isEvm) ensures TokenLeq(x, z, isEvm) {
      TokenTransitive(x, y, z, isEvm);
    }
  }

  // ----- decimal strings in the order of the numbers they denote

  function Pow10(n: nat): nat {
    if n == 0 then 1 else 10 * Pow10(n - 1)
  }

  function Digit(c: char): nat
    requires IsDigit(c)
  {
    c as nat - '0' as nat
  }

  /** The number that a string of digits denotes. */
  function Value(s: string): nat
    requires AllDigits(s)
  {
    if s == [] then 0 else Digit(s[0]) * Pow10(|s| - 1) + Value(s[1..])
  }

  lemma {:induction false} ValueBound(s: string)
    requires AllDigits(s)
    ensures Value(s) < Pow10(|s|)
  {
    if s != [] {
      ValueBound(s[1..]);
      assert Digit(s[0]) * Pow10(|s| - 1) <= 9 * Pow10(|s| - 1);
    }
  }

  lemma {:induction false} PowersGrow(m: nat, n: nat)
    requires m <= n
    ensures Pow10(m) <= Pow10(n) && Pow10(m) > 0
  {
    if m < n {
      PowersGrow(m, n - 1);
    } else if m > 0 {
      PowersGrow(m - 1, m - 1);
    }
  }

  lemma {:induction false} TrimZerosKeepsValue(s: string)
    requires AllDigits(s)
    ensures AllDigits(TrimZeros(s)) && Value(TrimZeros(s)) == Value(s)
    ensures TrimZeros(s) != [] ==> TrimZeros(s)[0] != '0'
  {
    if s != [] && s[0] == '0' {
      TrimZerosKeepsValue(s[1..]);
    }
  }

  /** A longer number without leading zeros is greater. */
  lemma LongerIsGreater(a: string, b: string)
    requires AllDigits(a) && AllDigits(b) && |a| < |b| && b[0] != '0'
    ensures Value(a) < Value(b)
  {
    hide Pow10;
    ValueBound(a);
    PowersGrow(|a|, |b| - 1);
    Multiples(Digit(b[0]), Pow10(|b| - 1));
    assert Value(b) == Digit(b[0]) * Pow10(|b| - 1) + Value(b[1..]);
  }

  /** Numbers of one length compare as texts. */
  lemma {:induction false} SameLengthCompares(a: string, b: string)
    requires AllDigits(a) && AllDigits(b) && |a| == |b|
    ensures CompareText(a, b) == CompareNat(Value(a), Value(b))
  {
    if a != [] {
      var p := Pow10(|a| - 1);
      if a[0] == b[0] {
        SameLengthCompares(a[1..], b[1..]);
      } else {
        ValueBound(a[1..]);
        ValueBound(b[1..]);
        FirstDigitDecides(Digit(a[0]), Digit(b[0]), p);
      }
    }
  }

  lemma FirstDigitDecides(x: nat, y: nat, p: nat)
    ensures x < y ==> x * p + p <= y * p
    ensures y < x ==> y * p + p <= x * p
  {
    Multiples(y - x, p);
    assert (y - x) * p == y * p - x * p;
  }

  ghost predicate Decimal(token: string) {
    Trim(token) != [] && AllDigits(Trim(token))
  }

  /** What the comparator decides: on EVM chains decimal ids stand by their number, before all
      others; every other pair of ids, and all ids on other chains, stand as texts. */
  lemma TokenOrderMeans(left: string, right: string, isEvm: bool)
    ensures CompareTokenIds(left, right, isEvm) ==
      if isEvm && Decimal(left) && Decimal(right) then
        if Value(Trim(left)) < Value(Trim(right)) then Less
        else if Value(Trim(left)) == Value(Trim(right)) then Equal
        else Greater
      else if isEvm && Decimal(left) then Less
      else if isEvm && Decimal(right) then Greater
      else if left == right then Equal
      else if Before(left, right) then Less
      else Greater
    ensures TokenLeq(left, right, isEvm) <==>
      if isEvm && Decimal(left) && Decimal(right) then Value(Trim(left)) <= Value(Trim(right))
      else if isEvm && (Decimal(left) || Decimal(right)) then Decimal(left)
      else left == right || Before(left, right)
  {
    CompareTextMeans(left, right);
    hide Trim, CompareText, Before, AllDigits, TrimZeros, Value;
    if Decimal(left) && Decimal(right) {
      DecimalsCompareAsNumbers(left, right);
    }
  }

  /** The number of a string of digits is the one its last digit extends. */
  lemma {:induction false} ValueMeans(s: string, c: char)
    requires AllDigits(s) && c in "0123456789"
    ensures AllDigits(s + [c]) && Value(s + [c]) == 10 * Value(s) + (c as nat - 48) && Value([]) == 0
  {
    if s != [] {
      ValueMeans(s[1..], c);
      assert (s + [c])[1..] == s[1..] + [c];
      assert Pow10(|s|) == 10 * Pow10(|s| - 1);
      TenTimes(Digit(s[0]), Pow10(|s| - 1));
    } else {
      assert [c][1..] == [];
    }
  }

  lemma TenTimes(d: nat, p: nat)
    ensures d * (10 * p) == 10 * (d * p)
  {}

  /** The digits are the ten characters. */
  lemma Digits(c: char)
    ensures IsDigit(c) <==> c in "0123456789"
  {}

  /** Decimal ids of any length compare as the integers they denote. */
  lemma DecimalsCompareAsNumbers(left: string, right: string)
    requires Decimal(left) && Decimal(right)
    ensures CompareTokenIds(left, right, true) == CompareNat(Value(Trim(left)), Value(Trim(right)))
  {
    hide Trim, CompareText;
    var a := MagnitudeOf(left);
    var b := MagnitudeOf(right);
    if |a| < |b| {
      LongerThanZero(a, b);
    } else if |b| < |a| {
      LongerThanZero(b, a);
    } else {
      SameLengthCompares(a, b);
    }
  }

  /** The magnitude denotes the same number, without leading zeros. */
  lemma MagnitudeOf(token: string) returns (m: string)
    requires Decimal(token)
    ensures DecimalMagnitude(token) == Some(m) && AllDigits(m) && Value(m) == Value(Trim(token))
    ensures m == "0" || (m != [] && m[0] != '0')
  {
    var t := Trim(token);
    hide Trim;
    TrimZerosKeepsValue(t);
    m := if TrimZeros(t) == [] then "0" else TrimZeros(t);
    assert Value("") == 0;
    assert "0"[1..] == "";
    assert Value("0") == Digit('0') * Pow10(0) + Value("");
  }

  lemma LongerThanZero(a: string, b: string)
    requires AllDigits(a) && AllDigits(b) && |a| < |b| && a != [] && (b == "0" || b[0] != '0')
    ensures Value(a) < Value(b)
  {
    LongerIsGreater(a, b);
  }
}
