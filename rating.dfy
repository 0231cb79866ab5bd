/**
 The star-rating acknowledgement of `rate(stars)`.

 The message interpolates the number of stars in decimal and adds a plural
 "s" only when there are more than one; the range of `stars` is not checked.
 Stars are whole numbers here, written in plain decimal (the page only ever
 passes 1 to 5).
 */
module Rating {

  function DigitChar(d: nat): (c: char)
    requires d < 10
    ensures '0' <= c <= '9'
  {
    "0123456789"[d]
  }

  predicate IsDigit(c: char) {
    '0' <= c <= '9'
  }

  /** A string of decimal digits. */
  predicate AllDigits(s: string) {
    forall i :: 0 <= i < |s| ==> IsDigit(s[i])
  }

  /** Decimal notation of a natural number, without leading zeros. */
  function NatToDecimal(n: nat): (r: string)
    ensures r != [] && AllDigits(r)
    ensures r[0] == '0' ==> n == 0
    decreases n
  {
    if n < 10 then [DigitChar(n)] else NatToDecimal(n / 10) + [DigitChar(n % 10)]
  }

  /** The number a string of decimal digits denotes. */
  function DecimalValue(s: string): nat
    requires AllDigits(s)
  {
    if s == [] then 0
    else DecimalValue(s[..|s| - 1]) * 10 + (s[|s| - 1] as int - '0' as int)
  }

  /** Reading the digits back gives the number. */
  lemma {:induction false} DecimalRoundTrip(n: nat)
    ensures DecimalValue(NatToDecimal(n)) == n
    decreases n
  {
    if n >= 10 {
      DecimalRoundTrip(n / 10);
      var r := NatToDecimal(n);
      assert r[..|r| - 1] == NatToDecimal(n / 10);
      assert r[|r| - 1] == DigitChar(n % 10);
      DigitValue(n % 10);
    } else {
      DigitValue(n);
    }
  }

  lemma DigitValue(d: nat)
    requires d < 10
    ensures DigitChar(d) as int - '0' as int == d
  {
  }

  /** Plain decimal notation of a whole number: a minus sign for negative
      numbers, then the digits of the magnitude. JavaScript's `${n}` writes
      this for the integers it holds exactly below 10^21 in magnitude. */
  function IntToDecimal(i: int): (r: string)
    ensures r != [] && (r[0] == '-' <==> i < 0)
    ensures Magnitude(r, i)
  {
    var d := NatToDecimal(if i < 0 then -i else i);
    DecimalRoundTrip(if i < 0 then -i else i);
    if i < 0 then MinusSign(d); "-" + d else d
  }

  /** The digits after the sign of `r` are the shortest decimal notation of
      the absolute value of `i`: non-empty, no leading zero unless `i` is 0,
      and they read back as that value. */
  predicate Magnitude(r: string, i: int) {
    var digits := if i < 0 && r != [] then r[1..] else r;
    && digits != [] && (digits[0] == '0' ==> i == 0)
    && AllDigits(digits) && DecimalValue(digits) == if i < 0 then -i else i
  }

  lemma MinusSign(d: string)
    ensures ("-" + d)[0] == '-' && ("-" + d)[1..] == d
  {
  }

  const MessagePrefix: string := "Thank you for rating "

  /** The text `rate` puts into the rating message element. */
  function RateMessage(stars: int): (m: string)
    ensures |m| > |MessagePrefix| && m[..|MessagePrefix|] == MessagePrefix
    ensures m[|m| - 1] == '!'
  {
    MessagePrefix + IntToDecimal(stars) + " star" + (if stars > 1 then "s" else "") + "!"
  }

  /** The message ends in "stars!" exactly when more than one star was given,
      and in " star!" otherwise; no range is enforced. */
  lemma PluralExactlyAboveOne(stars: int)
    ensures var m := RateMessage(stars);
      && |m| >= 7
      && (m[|m| - 6..] == "stars!" <==> stars > 1)
      && (stars <= 1 ==> m[|m| - 6..] == " star!")
  {
    var m := RateMessage(stars);
    var body := MessagePrefix + IntToDecimal(stars);
    if stars > 1 {
      assert m == body + " stars!";
      assert m[|m| - 6..] == "stars!";
    } else {
      assert m == body + " star!";
      assert m[|m| - 6..] == " star!";
    }
  }

  /** The number shown in the message reads back as the rating given; a
      negative rating is shown with a minus sign and the singular ending. */
  lemma MessageShowsStars(stars: int)
    ensures stars >= 0 ==>
      (exists digits :: digits != [] && (digits[0] == '0' ==> stars == 0) &&
         AllDigits(digits) && DecimalValue(digits) == stars &&
         RateMessage(stars) == MessagePrefix + digits + (if stars > 1 then " stars!" else " star!"))
    ensures stars < 0 ==>
      (exists digits :: digits != [] && digits[0] != '0' &&
         AllDigits(digits) && DecimalValue(digits) == -stars &&
         RateMessage(stars) == MessagePrefix + "-" + digits + " star!")
  {
    var r := IntToDecimal(stars);
    var ending := if stars > 1 then " stars!" else " star!";
    assert RateMessage(stars) == MessagePrefix + r + ending;
    if stars < 0 {
      var digits := r[1..];
      assert r == "-" + digits;
      assert MessagePrefix + r + ending == MessagePrefix + "-" + digits + " star!";
    }
  }

  lemma RateExamples()
    ensures RateMessage(1) == "Thank you for rating 1 star!"
    ensures RateMessage(3) == "Thank you for rating 3 stars!"
    ensures RateMessage(0) == "Thank you for rating 0 star!"
  {
  }
}
