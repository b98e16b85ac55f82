/** The site-wide constants of my-app/src/lib/constants.ts that the modelled components
    use: the contact e-mail, the WhatsApp number, the `wa.me` URL built from it, and the
    header height. */
module SiteConstants {

  const Email: string := "upedgetech111@gmail.com"

  /** The number as written, with its leading "+". */
  const WhatsAppNumber: string := "+923120518266"

  /** Desktop header height in pixels. */
  const HeaderHeight: nat := 72

  predicate IsDigit(c: char) { '0' <= c <= '9' }

  /** `s.replace(/[^0-9]/g, "")`: s with every character other than 0-9 removed. */
  function StripNonDigits(s: string): string
  {
    DigitsFrom(s, 0)
  }

  /** The digits of s from position i on, in order. */
  function DigitsFrom(s: string, i: nat): string
    decreases |s| - i
  {
    if i >= |s| then [] else (if IsDigit(s[i]) then [s[i]] else []) + DigitsFrom(s, i + 1)
  }

  /** What is left is digits only, and no longer than the input. */
  lemma {:induction false} DigitsFromLeavesDigits(s: string, i: nat)
    requires i <= |s|
    ensures var r := DigitsFrom(s, i);
            |r| <= |s| - i && forall k :: 0 <= k < |r| ==> IsDigit(r[k])
    decreases |s| - i
  {
    if i < |s| {
      DigitsFromLeavesDigits(s, i + 1);
    }
  }

  lemma StripLeavesDigits(s: string)
    ensures var r := StripNonDigits(s);
            |r| <= |s| && forall k :: 0 <= k < |r| ==> IsDigit(r[k])
  {
    DigitsFromLeavesDigits(s, 0);
  }

  lemma {:induction false} DigitsFromSuffix(a: string, b: string, j: nat)
    ensures DigitsFrom(a + b, |a| + j) == DigitsFrom(b, j)
    decreases |b| - j
  {
    if j < |b| {
      DigitsFromSuffix(a, b, j + 1);
      assert (a + b)[|a| + j] == b[j];
    }
  }

  lemma {:induction false} DigitsFromSplit(a: string, b: string, i: nat)
    requires i <= |a|
    ensures DigitsFrom(a + b, i) == DigitsFrom(a, i) + DigitsFrom(b, 0)
    decreases |a| - i
  {
    if i == |a| {
      DigitsFromSuffix(a, b, 0);
      assert DigitsFrom(a, i) == [];
    } else {
      DigitsFromSplit(a, b, i + 1);
      assert (a + b)[i] == a[i];
      var c := if IsDigit(a[i]) then [a[i]] else [];
      calc {
        DigitsFrom(a + b, i);
        c + DigitsFrom(a + b, i + 1);
        c + (DigitsFrom(a, i + 1) + DigitsFrom(b, 0));
        (c + DigitsFrom(a, i + 1)) + DigitsFrom(b, 0);
        DigitsFrom(a, i) + DigitsFrom(b, 0);
      }
    }
  }

  /** Stripping works piece by piece: the digits of a + b are the digits of a followed by
      the digits of b, so the digits keep their order. */
  lemma StripDistributes(a: string, b: string)
    ensures StripNonDigits(a + b) == StripNonDigits(a) + StripNonDigits(b)
  {
    DigitsFromSplit(a, b, 0);
  }

  /** Each character is looked at where it stands: a digit at position i is kept, between
      the digits before it and the digits after it; any other character is dropped. */
  lemma StripAt(s: string, i: nat)
    requires i < |s|
    ensures StripNonDigits(s) ==
            StripNonDigits(s[..i]) + (if IsDigit(s[i]) then [s[i]] else []) + StripNonDigits(s[i + 1..])
  {
    assert s == s[..i] + ([s[i]] + s[i + 1..]);
    StripDistributes(s[..i], [s[i]] + s[i + 1..]);
    StripDistributes([s[i]], s[i + 1..]);
    assert DigitsFrom([s[i]], 1) == [];
  }

  lemma {:induction false} DigitsFromOfDigits(s: string, i: nat)
    requires i <= |s|
    requires forall k :: 0 <= k < |s| ==> IsDigit(s[k])
    ensures DigitsFrom(s, i) == s[i..]
    decreases |s| - i
  {
    if i < |s| {
      DigitsFromOfDigits(s, i + 1);
      assert s[i..] == [s[i]] + s[i + 1..];
    }
  }

  /** A string of digits only is left as it is. */
  lemma StripKeepsDigitStrings(s: string)
    requires forall k :: 0 <= k < |s| ==> IsDigit(s[k])
    ensures StripNonDigits(s) == s
  {
    DigitsFromOfDigits(s, 0);
  }

  /** Stripping twice is stripping once. */
  lemma StripIdempotent(s: string)
    ensures StripNonDigits(StripNonDigits(s)) == StripNonDigits(s)
  {
    StripLeavesDigits(s);
    StripKeepsDigitStrings(StripNonDigits(s));
  }

  /** The `wa.me` address of a phone number: the number with its non-digits stripped. */
  function WaMeUrl(number: string): string
  {
    "https://wa.me/" + StripNonDigits(number)
  }

  /** `WHATSAPP_URL`, written out; WhatsAppUrlStripsNumber shows it is the `wa.me` address
      of WhatsAppNumber. */
  const WhatsAppUrl: string := "https://wa.me/923120518266"

  /** The number part of a `wa.me` address is digits only, whatever the number looked like. */
  lemma WaMeUrlDigitsOnly(number: string)
    ensures var u := WaMeUrl(number);
            |u| >= 14 && u[..14] == "https://wa.me/" && forall i :: 14 <= i < |u| ==> IsDigit(u[i])
  {
    StripLeavesDigits(number);
  }

  /** A number written as "+" followed by digits has the digits as its `wa.me` path. */
  lemma WaMeUrlOfPlusDigits(number: string)
    requires |number| > 0 && number[0] == '+'
    requires forall i :: 1 <= i < |number| ==> IsDigit(number[i])
    ensures WaMeUrl(number) == "https://wa.me/" + number[1..]
  {
    var digits := number[1..];
    assert number == [number[0]] + digits;
    StripDistributes([number[0]], digits);
    StripKeepsDigitStrings(digits);
    assert DigitsFrom([number[0]], 1) == [];
  }

  /** The site's number is "+" followed by digits, and WhatsAppUrl is "https://wa.me/"
      followed by those digits: by WaMeUrlOfPlusDigits, it is WaMeUrl(WhatsAppNumber). */
  lemma WhatsAppUrlStripsNumber()
    ensures |WhatsAppNumber| > 0 && WhatsAppNumber[0] == '+'
    ensures forall i :: 1 <= i < |WhatsAppNumber| ==> IsDigit(WhatsAppNumber[i])
    ensures WhatsAppUrl == "https://wa.me/" + WhatsAppNumber[1..]
  {
  }

  /** `WHATSAPP_URL` is the `wa.me` address of `WHATSAPP_NUMBER`, the "+" dropped. */
  lemma WhatsAppUrlIsWaMeUrl()
    ensures WhatsAppUrl == WaMeUrl(WhatsAppNumber)
  {
    WhatsAppUrlStripsNumber();
    WaMeUrlOfPlusDigits(WhatsAppNumber);
  }
}
