/** Payer phone numbers: the rewrite of a Kenyan mobile number into the
    international form `2547XXXXXXXX` and the format check applied before a
    payment record is created (controllers/mpesaController.js). */
module Phone {

  predicate IsDigit(c: char) {
    '0' <= c <= '9'
  }

  predicate AllDigits(s: string) {
    forall i :: 0 <= i < |s| ==> IsDigit(s[i])
  }

  /** `String(x).replace(/\D/g, '')`: keep the decimal digits, in order. */
  function Digits(s: string): (r: string)
    ensures AllDigits(r)
    ensures |r| <= |s|
  {
    if s == [] then []
    else if IsDigit(s[0]) then [s[0]] + Digits(s[1..])
    else Digits(s[1..])
  }

  lemma {:induction false} DigitsOfDigits(s: string)
    requires AllDigits(s)
    ensures Digits(s) == s
  {
    if s != [] {
      DigitsOfDigits(s[1..]);
    }
  }

  /** `normalizePhone`: `07…` becomes `2547…`, a leading `7` gets `254` in front,
      anything else (including `254…`) is returned as its digits. */
  function Normalize(msisdn: string): (r: string)
    ensures AllDigits(r)
  {
    var cleaned := Digits(msisdn);
    if |cleaned| >= 2 && cleaned[..2] == "07" then "254" + cleaned[1..]
    else if |cleaned| >= 1 && cleaned[0] == '7' then "254" + cleaned
    else cleaned
  }

  /** The test `/^2547\d{8}$/`. */
  predicate IsCanonical(s: string) {
    |s| == 12 && s[..4] == "2547" && AllDigits(s)
  }

  /** Any all-digit number starting `07` loses the 0 and gains `254`. */
  lemma NormalizeLocalRule(s: string)
    requires AllDigits(s) && |s| >= 2 && s[..2] == "07"
    ensures Normalize(s) == "254" + s[1..]
  {
    DigitsOfDigits(s);
  }

  /** Any all-digit number starting `7` gains `254`. */
  lemma NormalizeBareRule(s: string)
    requires AllDigits(s) && |s| >= 1 && s[0] == '7'
    ensures Normalize(s) == "254" + s
  {
    DigitsOfDigits(s);
    assert |s| >= 2 ==> s[..2] != "07";
  }

  /** A second local number, with the canonical form it normalises to. */
  lemma NormalizeSecondLocal()
    ensures Normalize("0722000000") == "254722000000"
    ensures IsCanonical("254722000000")
  {
    var s := "0722000000";
    assert s[..2] == "07";
    NormalizeLocalRule(s);
    assert s[1..] == "722000000";
  }

  /** The local spelling `07…` of a number normalises to the canonical form; the
      `07` rule is tried before the `7` rule, so no `2540…` results. */
  lemma NormalizeLocalForm()
    ensures Normalize("0712345678") == "254712345678"
  {
    var s := "0712345678";
    assert s[..2] == "07";
    NormalizeLocalRule(s);
    assert s[1..] == "712345678";
  }

  /** The bare spelling `7…` of the same number normalises to the same form. */
  lemma NormalizeBareForm()
    ensures Normalize("712345678") == "254712345678"
  {
    NormalizeBareRule("712345678");
  }

  /** A number already in canonical form is a fixed point of `Normalize`. */
  lemma NormalizeCanonicalFixed(s: string)
    requires IsCanonical(s)
    ensures Normalize(s) == s
  {
    DigitsOfDigits(s);
    assert s[0] == '2';
  }

  /** The international spelling `2547…` is left as it is. */
  lemma NormalizeInternationalForm()
    ensures Normalize("254712345678") == "254712345678"
  {
    NormalizeCanonicalFixed("254712345678");
  }

  /** Separators and a leading `+` are dropped before the prefix rules apply. */
  lemma NormalizeDropsSeparators()
    ensures Normalize("+254-712") == "254712"
  {
    var s := "+254-712";
    assert s[1..] == "254-712";
    assert Digits(s) == Digits("254-712");
    assert "254-712"[3..] == "-712";
    DigitsOfDigits("254");
    assert Digits("254-712") == "254" + Digits("-712") by {
      DigitsPrefix("254", "-712");
    }
    assert "-712"[1..] == "712";
    DigitsOfDigits("712");
  }

  lemma {:induction false} DigitsPrefix(a: string, b: string)
    ensures Digits(a + b) == Digits(a) + Digits(b)
  {
    if a != [] {
      assert (a + b)[0] == a[0];
      assert (a + b)[1..] == a[1..] + b;
      assert Digits(a + b) == (if IsDigit(a[0]) then [a[0]] else []) + Digits(a[1..] + b);
      var h: string := if IsDigit(a[0]) then [a[0]] else [];
      assert Digits(a) == h + Digits(a[1..]);
      DigitsPrefix(a[1..], b);
      assert h + (Digits(a[1..]) + Digits(b)) == (h + Digits(a[1..])) + Digits(b);
    } else {
      assert a + b == b;
    }
  }

  /** Normalising twice is normalising once. */
  lemma NormalizeIdempotent(msisdn: string)
    ensures Normalize(Normalize(msisdn)) == Normalize(msisdn)
  {
    var n := Normalize(msisdn);
    DigitsOfDigits(n);
    var cleaned := Digits(msisdn);
    if |cleaned| >= 2 && cleaned[..2] == "07" {
      assert n[..3] == "254";
    } else if |cleaned| >= 1 && cleaned[0] == '7' {
      assert n[..3] == "254";
    } else {
      assert n == cleaned;
    }
  }

  /** Exactly which inputs pass the format check after normalisation: their digits
      are `07` + 8 digits, or `7` + 8 digits, or `2547` + 8 digits. */
  lemma CanonicalAfterNormalize(msisdn: string)
    ensures IsCanonical(Normalize(msisdn)) <==>
      var c := Digits(msisdn);
      || (|c| == 10 && c[..2] == "07")
      || (|c| == 9 && c[0] == '7')
      || (|c| == 12 && c[..4] == "2547")
  {
    var c := Digits(msisdn);
    var n := Normalize(msisdn);
    if |c| >= 2 && c[..2] == "07" {
      assert n == "254" + c[1..];
      assert n[..4] == "254" + [c[1]];
      assert c[1] == '7';
      assert |c| == 12 ==> c[..4] != "2547";
    } else if |c| >= 1 && c[0] == '7' {
      assert n == "254" + c;
      assert n[..4] == "254" + [c[0]];
      assert |c| == 12 ==> c[..4] != "2547";
    } else {
      assert n == c;
    }
  }
}
