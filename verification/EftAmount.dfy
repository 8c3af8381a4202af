/** The bank EFT amount a finance admin types, turned into minor units. */
module EftAmount {
  import opened Options
  import opened Text
  import opened Doubles

  datatype AmountError = Malformed | NotPositiveExact

  /** The integer a run of decimal digits denotes. */
  function DigitsValue(s: string): nat
    requires AllDigits(s)
  {
    if s == "" then 0 else 10 * DigitsValue(s[..|s| - 1]) + (s[|s| - 1] as int - '0' as int)
  }

  /** `Number(s)` of a run of digits: the double nearest to the denoted integer. */
  function NumberOf(s: string): Double
    requires AllDigits(s)
  {
    ToDouble(DigitsValue(s))
  }

  function DigitRun(s: string): (n: nat)
    ensures n <= |s| && AllDigits(s[..n])
    ensures n < |s| ==> !IsDigit(s[n])
  {
    if s == "" || !IsDigit(s[0]) then 0
    else
      var n := DigitRun(s[1..]);
      assert s[..n + 1] == [s[0]] + s[1..][..n];
      n + 1
  }

  datatype AmountText = AmountText(whole: string, cents: string)

  /** Capture groups of the amount pattern: digits, then at most one point followed by
      one or two digits. `cents` is empty when the second group did not take part. */
  function MatchAmount(t: string): (m: Option<AmountText>)
    ensures m.Some? ==> AllDigits(m.value.whole) && AllDigits(m.value.cents) && |m.value.cents| <= 2
  {
    var n := DigitRun(t);
    if n == 0 then None
    else if n == |t| then Some(AmountText(t, ""))
    else if t[n] == '.' && 1 <= |t| - n - 1 <= 2 && AllDigits(t[n + 1..]) then
      Some(AmountText(t[..n], t[n + 1..]))
    else None
  }

  function PadEndZero(cents: string): string
    requires |cents| <= 2
  {
    cents + seq(2 - |cents|, _ => '0')
  }

  /** The amount in minor units, each step a rounded double. */
  function EnteredMinor(whole: string, cents: string): Double
    requires AllDigits(whole) && AllDigits(cents) && |cents| <= 2
  {
    Add(Scale(NumberOf(whole), 100), NumberOf(PadEndZero(cents)))
  }

  /** `parseEnteredEftMinor`. */
  function ParseEnteredEftMinor(value: string): Result<nat, AmountError> {
    match MatchAmount(Trim(value))
    case None => Err(Malformed)
    case Some(AmountText(whole, cents)) =>
      var minor := EnteredMinor(whole, cents);
      if minor.Infinity? || minor.n >= TWO53 || minor.n == 0 then Err(NotPositiveExact) else Ok(minor.n)
  }

  /** A decimal amount with at most two places. */
  predicate IsAmount(whole: string, cents: string) {
    whole != "" && AllDigits(whole) && AllDigits(cents) && |cents| <= 2
  }

  function AmountString(whole: string, cents: string): string {
    whole + if cents == "" then "" else "." + cents
  }

  /** The exact amount in minor units, in unbounded integers. */
  function ExactMinor(whole: string, cents: string): nat
    requires IsAmount(whole, cents)
  {
    100 * DigitsValue(whole) + DigitsValue(PadEndZero(cents))
  }

  lemma DigitRunIs(s: string, n: nat)
    requires n <= |s| && AllDigits(s[..n]) && (n < |s| ==> !IsDigit(s[n]))
    ensures DigitRun(s) == n
  {
    var d := DigitRun(s);
    assert forall i | 0 <= i < n :: s[..n][i] == s[i];
    assert forall i | 0 <= i < d :: s[..d][i] == s[i];
  }

  lemma MatchFinds(whole: string, cents: string)
    requires IsAmount(whole, cents)
    ensures MatchAmount(AmountString(whole, cents)) == Some(AmountText(whole, cents))
  {
    var t := AmountString(whole, cents);
    assert t[..|whole|] == whole;
    DigitRunIs(t, |whole|);
    if cents == "" {
      assert t == whole;
    } else {
      assert t[|whole| + 1..] == cents;
    }
  }

  lemma MatchIsAmount(t: string)
    requires MatchAmount(t).Some?
    ensures IsAmount(MatchAmount(t).value.whole, MatchAmount(t).value.cents)
    ensures t == AmountString(MatchAmount(t).value.whole, MatchAmount(t).value.cents)
  {
    var n := DigitRun(t);
    if n < |t| { assert t == t[..n] + "." + t[n + 1..]; }
  }

  lemma CentsValue(cents: string)
    requires AllDigits(cents) && |cents| <= 2
    ensures DigitsValue(PadEndZero(cents)) < 100
  {
    var p := PadEndZero(cents);
    assert |p| == 2 && AllDigits(p);
    assert DigitsValue(p) == 10 * DigitsValue(p[..1]) + (p[1] as int - '0' as int);
    assert DigitsValue(p[..1]) == 10 * DigitsValue(p[..1][..0]) + (p[0] as int - '0' as int);
  }

  /** The three rounded steps lose nothing below 2^53 and never fall back under it. */
  lemma RoundedSum(w: nat, c: nat)
    requires c < 100
    ensures var sum := Add(Scale(ToDouble(w), 100), ToDouble(c));
            if 100 * w + c < TWO53 then sum == Finite(100 * w + c) else sum.Infinity? || sum.n >= TWO53
  {
    ToDoubleThreshold(w);
    ToDoubleThreshold(c);
    if ToDouble(w).Finite? {
      var product := ToDouble(w).n * 100;
      ToDoubleThreshold(product);
      if ToDouble(product).Finite? { ToDoubleThreshold(ToDouble(product).n + c); }
    }
  }

  lemma EnteredMinorIsExact(whole: string, cents: string)
    requires IsAmount(whole, cents)
    ensures var m := ExactMinor(whole, cents);
            if m < TWO53 then EnteredMinor(whole, cents) == Finite(m)
            else EnteredMinor(whole, cents).Infinity? || EnteredMinor(whole, cents).n >= TWO53
  {
    CentsValue(cents);
    RoundedSum(DigitsValue(whole), DigitsValue(PadEndZero(cents)));
  }

  lemma TrimsToAmount(lead: string, whole: string, cents: string, trail: string)
    requires AllWhitespace(lead) && AllWhitespace(trail) && IsAmount(whole, cents)
    ensures Trim(lead + AmountString(whole, cents) + trail) == AmountString(whole, cents)
  {
    var t := AmountString(whole, cents);
    assert t[0] == whole[0];
    assert t[|t| - 1] == (if cents == "" then whole[|whole| - 1] else cents[|cents| - 1]);
    TrimPadded(lead, t, trail);
  }

  /** On every padded decimal text the parser answers by exact integer arithmetic: it accepts
      precisely the amounts from 1 to 2^53 - 1 minor units, and returns them unchanged. */
  lemma AcceptsExactly(lead: string, whole: string, cents: string, trail: string)
    requires AllWhitespace(lead) && AllWhitespace(trail) && IsAmount(whole, cents)
    ensures var m := ExactMinor(whole, cents);
            ParseEnteredEftMinor(lead + AmountString(whole, cents) + trail)
              == if 1 <= m < TWO53 then Ok(m) else Err(NotPositiveExact)
  {
    TrimsToAmount(lead, whole, cents, trail);
    MatchFinds(whole, cents);
    EnteredMinorIsExact(whole, cents);
  }

  ghost predicate IsPaddedAmount(value: string, lead: string, whole: string, cents: string, trail: string) {
    && AllWhitespace(lead) && AllWhitespace(trail) && IsAmount(whole, cents)
    && value == lead + AmountString(whole, cents) + trail
  }

  /** The malformed verdict is given exactly to the texts that are not a padded decimal amount. */
  lemma RejectsExactly(value: string)
    ensures ParseEnteredEftMinor(value) == Err(Malformed)
       <==> !exists lead, whole, cents, trail :: IsPaddedAmount(value, lead, whole, cents, trail)
  {
    if ParseEnteredEftMinor(value) == Err(Malformed) {
      forall lead, whole, cents, trail | IsPaddedAmount(value, lead, whole, cents, trail)
        ensures false
      {
        AcceptsExactly(lead, whole, cents, trail);
      }
    } else {
      var lead, trail := TrimSplits(value);
      MatchIsAmount(Trim(value));
      var m := MatchAmount(Trim(value)).value;
      assert IsPaddedAmount(value, lead, m.whole, m.cents, trail);
    }
  }

  /** The cents of an amount: none, tenths, or hundredths. */
  lemma CentsByPlace(cents: string)
    requires AllDigits(cents) && |cents| <= 2
    ensures DigitsValue(PadEndZero(cents)) ==
            if cents == "" then 0
            else if |cents| == 1 then 10 * (cents[0] as int - '0' as int)
            else 10 * (cents[0] as int - '0' as int) + (cents[1] as int - '0' as int)
  {
    var p := PadEndZero(cents);
    assert |p| == 2 && p[..1][..0] == "";
    assert DigitsValue(p) == 10 * DigitsValue(p[..1]) + (p[1] as int - '0' as int);
    assert DigitsValue(p[..1]) == 10 * DigitsValue(p[..1][..0]) + (p[0] as int - '0' as int);
  }

  /** `value` is, up to padding, a decimal text of the amount `m`: at least one digit and at most two
      places, in the range a double holds exactly. */
  ghost predicate Denotes(value: string, m: nat) {
    exists lead, whole, cents, trail ::
      IsPaddedAmount(value, lead, whole, cents, trail) && m == ExactMinor(whole, cents) && 1 <= m <= 9007199254740991
  }

  /** The parser returns exactly the amounts that the text denotes. */
  lemma ParsesExactly(value: string, m: nat)
    ensures ParseEnteredEftMinor(value) == Ok(m) <==> Denotes(value, m)
  {
    RejectsExactly(value);
    forall lead, whole, cents, trail | IsPaddedAmount(value, lead, whole, cents, trail)
      ensures ParseEnteredEftMinor(value) ==
              if 1 <= ExactMinor(whole, cents) <= 9007199254740991 then Ok(ExactMinor(whole, cents)) else Err(NotPositiveExact)
    {
      AcceptsExactly(lead, whole, cents, trail);
    }
  }

  lemma ParsedIsSafe(value: string)
    ensures ParseEnteredEftMinor(value).Ok? ==> 1 <= ParseEnteredEftMinor(value).value < TWO53
  {
  }

  function DigitChar(d: nat): (c: char)
    requires d < 10
    ensures IsDigit(c) && c as int - '0' as int == d
  {
    ('0' as int + d) as char
  }

  function Decimal(n: nat): (s: string)
    ensures s != "" && AllDigits(s) && DigitsValue(s) == n
  {
    if n < 10 then
      assert [DigitChar(n)][..0] == "";
      [DigitChar(n)]
    else
      var s := Decimal(n / 10) + [DigitChar(n % 10)];
      assert s[..|s| - 1] == Decimal(n / 10);
      s
  }

  /** The two-decimal printing of an amount in minor units. */
  function PrintMinor(m: nat): string {
    Decimal(m / 100) + "." + [DigitChar(m / 10 % 10), DigitChar(m % 10)]
  }

  lemma TwoDigits(hi: nat, lo: nat)
    requires hi < 10 && lo < 10
    ensures DigitsValue([DigitChar(hi), DigitChar(lo)]) == 10 * hi + lo
  {
    var cents := [DigitChar(hi), DigitChar(lo)];
    assert cents[..1] == [DigitChar(hi)];
    assert [DigitChar(hi)][..0] == "";
    assert DigitsValue([DigitChar(hi)]) == hi;
  }

  lemma DecimalParts(m: nat)
    ensures 100 * (m / 100) + (10 * (m / 10 % 10) + m % 10) == m
  {
  }

  lemma PrintedExactly(m: nat, whole: string, cents: string)
    requires IsAmount(whole, cents) && |cents| == 2
    requires ExactMinor(whole, cents) == m && 1 <= m < TWO53
    ensures ParseEnteredEftMinor(whole + "." + cents) == Ok(m)
  {
    var t := whole + "." + cents;
    assert t == AmountString(whole, cents) && t == "" + t + "";
    AcceptsExactly("", whole, cents, "");
  }

  /** Parsing inverts printing for every amount the parser may return. */
  lemma ParseInvertsPrint(m: nat)
    requires 1 <= m < TWO53
    ensures ParseEnteredEftMinor(PrintMinor(m)) == Ok(m)
  {
    var whole, cents := Decimal(m / 100), [DigitChar(m / 10 % 10), DigitChar(m % 10)];
    TwoDigits(m / 10 % 10, m % 10);
    DecimalParts(m);
    assert PadEndZero(cents) == cents;
    PrintedExactly(m, whole, cents);
  }

  lemma Denoted(value: string, lead: string, whole: string, cents: string, trail: string, m: nat)
    requires IsPaddedAmount(value, lead, whole, cents, trail) && ExactMinor(whole, cents) == m && 1 <= m <= 9007199254740991
    ensures ParseEnteredEftMinor(value) == Ok(m)
  {
    assert Denotes(value, m);
    ParsesExactly(value, m);
  }

  lemma Twelve()
    ensures DigitsValue("12") == 12
  {
    assert "12"[..1] == "1" && "1"[..0] == "";
    assert DigitsValue("1") == 1;
  }

  /** For example: twelve and three tenths, padded. */
  lemma TenthsForExample()
    ensures ParseEnteredEftMinor(" 12.3 ") == Ok(1230)
  {
    Twelve();
    CentsByPlace("3");
    assert " " + AmountString("12", "3") + " " == " 12.3 ";
    Denoted(" 12.3 ", " ", "12", "3", " ", 1230);
  }

  /** For example: a whole amount. */
  lemma WholeForExample()
    ensures ParseEnteredEftMinor("12") == Ok(1200)
  {
    Twelve();
    CentsByPlace("");
    assert "" + AmountString("12", "") + "" == "12";
    Denoted("12", "", "12", "", "", 1200);
  }
}
