/** The phone-number checks of the booking form: the digit extraction both
    start with, the validator `validarTelefone` and the display mask
    `formatarTelefone`. */
module Phone {
  import opened Lists

  /** A character matched by `\d` in a JavaScript regular expression without
      the `u` flag: the ASCII digits only. */
  predicate IsDigit(c: char) {
    '0' <= c <= '9'
  }

  /** `numero.replace(/\D/g, '')`: the digits of `s`, in order. */
  function Digits(s: string): (r: string)
    ensures forall i :: 0 <= i < |r| ==> IsDigit(r[i])
  {
    Filter(s, IsDigit)
  }

  /** The area codes (DDD) the validator recognises. */
  const AreaCodes: seq<string> := ["11", "12", "13", "19", "21", "24", "27", "31", "32"]

  /** `validarTelefone`: 10 or 11 digits whose first two form a recognised
      area code. */
  function ValidPhone(numero: string): (ok: bool)
    ensures ok ==> 10 <= |Digits(numero)| <= 11
    ensures ok <==> 10 <= |Digits(numero)| <= 11 && [Digits(numero)[0], Digits(numero)[1]] in AreaCodes
  {
    var numeros := Digits(numero);
    if |numeros| < 10 || |numeros| > 11 then false
    else
      assert numeros[..2] == [numeros[0], numeros[1]];
      numeros[..2] in AreaCodes
  }

  /** `formatarTelefone`: the mask `(00) 0000-0000` for up to ten digits and
      `(00) 00000-0000` for eleven or more, built from at most the first
      eleven digits. */
  function FormatPhone(numero: string): (r: string)
    ensures 0 < |r| <= 15 && r[0] == '('
  {
    var numeros := Digits(numero);
    if |numeros| <= 2 then "(" + numeros
    else if |numeros| <= 6 then "(" + numeros[..2] + ") " + numeros[2..]
    else if |numeros| <= 10 then "(" + numeros[..2] + ") " + numeros[2..6] + "-" + numeros[6..]
    else "(" + numeros[..2] + ") " + numeros[2..7] + "-" + numeros[7..11]
  }

  function Min(a: int, b: int): int {
    if a <= b then a else b
  }

  /** A string made of digits only is its own digit string. */
  lemma DigitsOfDigitString(s: string)
    requires AllDigits(s)
    ensures Digits(s) == s
  {
    FilterKeepsAll(s, IsDigit);
  }

  lemma DigitsAppend(a: string, b: string)
    ensures Digits(a + b) == Digits(a) + Digits(b)
  {
    FilterAppend(a, b, IsDigit);
  }

  /** Extracting digits twice is extracting them once. */
  lemma DigitsIdempotent(s: string)
    ensures Digits(Digits(s)) == Digits(s)
  {
    DigitsOfDigitString(Digits(s));
  }

  /** The validator looks at the digits alone: any punctuation, spaces or
      letters around them make no difference. */
  lemma ValidPhoneSeesOnlyDigits(s: string)
    ensures ValidPhone(s) == ValidPhone(Digits(s))
  {
    DigitsIdempotent(s);
  }

  predicate AllDigits(s: string) {
    forall i :: 0 <= i < |s| ==> IsDigit(s[i])
  }

  lemma NoDigits(s: string)
    requires forall i :: 0 <= i < |s| ==> !IsDigit(s[i])
    ensures Digits(s) == []
  {
    FilterKeepsNone(s, IsDigit);
  }

  /** The digits of the mask's pieces: the punctuation contributes none. */
  lemma DigitsOfOpening(a: string)
    requires AllDigits(a)
    ensures Digits("(" + a) == a
  {
    NoDigits("(");
    DigitsOfDigitString(a);
    DigitsAppend("(", a);
  }

  lemma DigitsOfArea(a: string, b: string)
    requires AllDigits(a) && AllDigits(b)
    ensures Digits("(" + a + ") " + b) == a + b
  {
    var x := "(" + a;
    var sep := ") ";
    NoDigits(sep);
    DigitsOfOpening(a);
    DigitsOfDigitString(b);
    DigitsAppend(x, sep);
    assert Digits(x + sep) == a;
    DigitsAppend(x + sep, b);
  }

  lemma DigitsOfFullMask(a: string, b: string, c: string)
    requires AllDigits(a) && AllDigits(b) && AllDigits(c)
    ensures Digits("(" + a + ") " + b + "-" + c) == a + b + c
  {
    var x := "(" + a + ") " + b;
    NoDigits("-");
    DigitsOfArea(a, b);
    DigitsOfDigitString(c);
    DigitsAppend(x, "-");
    assert Digits(x + "-") == a + b;
    DigitsAppend(x + "-", c);
  }

  /** Removing the non-digits from the mask gives back the first eleven
      digits of the input (all of them when there are fewer). */
  lemma FormatPhoneKeepsDigits(s: string)
    ensures Digits(FormatPhone(s)) == Digits(s)[..Min(11, |Digits(s)|)]
  {
    var d := Digits(s);
    if |d| <= 2 {
      DigitsOfOpening(d);
    } else if |d| <= 6 {
      DigitsOfArea(d[..2], d[2..]);
      assert d[..2] + d[2..] == d;
    } else if |d| <= 10 {
      DigitsOfFullMask(d[..2], d[2..6], d[6..]);
      assert d[..2] + d[2..6] + d[6..] == d;
    } else {
      DigitsOfFullMask(d[..2], d[2..7], d[7..11]);
      assert d[..2] + d[2..7] + d[7..11] == d[..11];
    }
  }

  /** Masking an already masked number changes nothing. */
  lemma FormatPhoneIdempotent(s: string)
    ensures FormatPhone(FormatPhone(s)) == FormatPhone(s)
  {
    var d := Digits(s);
    FormatPhoneKeepsDigits(s);
    var d' := Digits(FormatPhone(s));
    if |d| > 11 {
      assert d'[..2] == d[..2] && d'[2..7] == d[2..7] && d'[7..11] == d[7..11];
    }
  }

  /** Masking and then validating is validating, as long as the mask did not
      drop digits (at most eleven); a longer input is rejected as typed but
      its mask may be accepted. */
  lemma ValidPhoneOfMask(s: string)
    ensures |Digits(s)| <= 11 ==> ValidPhone(FormatPhone(s)) == ValidPhone(s)
    ensures |Digits(s)| > 11 ==> !ValidPhone(s)
  {
    FormatPhoneKeepsDigits(s);
  }

  /** The validator rejects a phone with too few digits such as "123". */
  lemma ShortPhoneRejected()
    ensures !ValidPhone("123")
  {
    DigitsOfDigitString("123");
  }
}
