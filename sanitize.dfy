/** The input normalisers of `lib/sanitize.ts`. Each one answers `""` for
    empty input and otherwise either a normalised value or the error it
    throws. The HTML cleaner the text sanitizer delegates to is a
    parameter. */
module Sanitize {
  import opened Wrappers
  import opened Text
  import SendEmailRoute

  /** The errors the normalisers throw. */
  datatype Failure =
    | InvalidEmail
    | BelowMin(min: real)
    | AboveMax(max: real)
    | InvalidPhone
    | InvalidZip

  /** `sanitizeText`: empty input gives `""`; otherwise the output of the
      tag-stripping cleaner `purify`, with white space trimmed from both
      ends. */
  function SanitizeText(input: string, purify: string -> string): (r: string)
    ensures input == "" ==> r == ""
    ensures input != "" ==> r == Trim(purify(input))
    ensures r == [] || (!IsSpace(r[0]) && !IsSpace(r[|r| - 1]))
    ensures |r| <= |purify(input)| || input == ""
  {
    if input == "" then "" else Trim(purify(input))
  }

  lemma {:induction false} LowerKeepsAtomChars(c: char)
    ensures IsSpace(Lower(c)) == IsSpace(c)
    ensures (Lower(c) == '@') == (c == '@')
    ensures (Lower(c) == '.') == (c == '.')
  {
  }

  lemma {:induction false} LowerKeepsAtom(s: string, lo: nat, hi: nat)
    requires lo <= hi <= |s| && SendEmailRoute.IsAtom(s[lo..hi])
    ensures SendEmailRoute.IsAtom(ToLower(s)[lo..hi])
  {
    var t := ToLower(s);
    forall k | 0 <= k < hi - lo ensures !IsSpace(t[lo..hi][k]) && t[lo..hi][k] != '@' {
      assert t[lo..hi][k] == Lower(s[lo..hi][k]);
      LowerKeepsAtomChars(s[lo..hi][k]);
    }
  }

  /** Lower-casing never turns a valid address into an invalid one. */
  lemma {:induction false} LowerKeepsValidEmail(s: string)
    requires SendEmailRoute.IsValidEmail(s)
    ensures SendEmailRoute.IsValidEmail(ToLower(s))
  {
    var i, j := SendEmailRoute.ValidEmailParts(s);
    var t := ToLower(s);
    assert s[..i] == s[0..i] && t[..i] == t[0..i];
    assert s[j + 1..] == s[j + 1..|s|] && t[j + 1..] == t[j + 1..|t|];
    LowerKeepsAtom(s, 0, i);
    LowerKeepsAtom(s, i + 1, j);
    LowerKeepsAtom(s, j + 1, |s|);
    LowerKeepsAtomChars(s[i]);
    LowerKeepsAtomChars(s[j]);
    SendEmailRoute.ShapeIsValidEmail(t, i, j);
  }

  lemma {:induction false} LowerIdempotent(s: string)
    ensures ToLower(ToLower(s)) == ToLower(s)
  {
  }

  /** `sanitizeEmail`: empty input gives `""`; otherwise the cleaned text
      must match the address pattern (else `InvalidEmail` is thrown) and is
      returned lower-cased. A returned address is valid and already lower
      case, so cleaning it again (with a cleaner that leaves plain text
      alone) returns it unchanged. */
  function SanitizeEmail(email: string, purify: string -> string): (r: Result<string, Failure>)
    ensures email == "" ==> r == Ok("")
    ensures email != "" ==> (r.Err? <==> !SendEmailRoute.EmailShape(SanitizeText(email, purify)))
    ensures r.Err? ==> r.error == InvalidEmail
    ensures email != "" && r.Ok? ==> r.value == ToLower(SanitizeText(email, purify))
    ensures email != "" && r.Ok? ==> SendEmailRoute.EmailShape(r.value) && ToLower(r.value) == r.value
  {
    if email == "" then Ok("")
    else
      var cleaned := SanitizeText(email, purify);
      SendEmailRoute.IsValidEmailMatchesRegex(cleaned);
      if !SendEmailRoute.IsValidEmail(cleaned) then Err(InvalidEmail)
      else
        var lowered := ToLower(cleaned);
        LowerKeepsValidEmail(cleaned);
        SendEmailRoute.IsValidEmailMatchesRegex(lowered);
        LowerIdempotent(cleaned);
        Ok(lowered)
  }

  /** An address `sanitizeEmail` returned passes it again unchanged (given
      a cleaner that leaves that plain text alone), and the send-email
      route accepts it. */
  lemma {:induction false} SanitizeEmailIdempotent(email: string, purify: string -> string)
    requires SanitizeEmail(email, purify).Ok?
    requires purify(SanitizeEmail(email, purify).value) == SanitizeEmail(email, purify).value
    ensures SanitizeEmail(SanitizeEmail(email, purify).value, purify) == SanitizeEmail(email, purify)
    ensures email != "" ==> SendEmailRoute.IsValidEmail(SanitizeEmail(email, purify).value)
  {
    var v := SanitizeEmail(email, purify).value;
    if email != "" {
      SendEmailRoute.IsValidEmailMatchesRegex(v);
      ShapedAddressUnpadded(v);
      TrimOfUnpadded(v);
      assert SanitizeText(v, purify) == v;
      var w := SanitizeEmail(v, purify);
      assert w.Ok? && w.value == ToLower(v);
    }
  }

  /** An address of the accepted shape neither starts nor ends with white
      space. */
  lemma {:induction false} ShapedAddressUnpadded(v: string)
    requires SendEmailRoute.EmailShape(v)
    ensures v != [] && !IsSpace(v[0]) && !IsSpace(v[|v| - 1])
  {
    var i, j :| 0 < i < j < |v| - 1 && v[i] == '@' && v[j] == '.'
      && SendEmailRoute.IsAtom(v[..i]) && SendEmailRoute.IsAtom(v[i + 1..j]) && SendEmailRoute.IsAtom(v[j + 1..]);
    assert v[..i][0] == v[0];
    assert v[j + 1..][|v| - j - 2] == v[|v| - 1];
  }

  /** `sanitizeNumber` for numeric input (finite values only): the number
      is returned unchanged when it lies within the bounds that are given;
      the lower bound is checked first. */
  function SanitizeNumber(num: real, min: Option<real>, max: Option<real>): (r: Result<real, Failure>)
    ensures r.Ok? <==> (min.None? || min.value <= num) && (max.None? || num <= max.value)
    ensures r.Ok? ==> r.value == num
    ensures min.Some? && num < min.value ==> r == Err(BelowMin(min.value))
    ensures (min.None? || min.value <= num) && max.Some? && num > max.value ==> r == Err(AboveMax(max.value))
  {
    if min.Some? && num < min.value then Err(BelowMin(min.value))
    else if max.Some? && num > max.value then Err(AboveMax(max.value))
    else Ok(num)
  }

  /** Omitted bounds impose nothing. */
  lemma {:induction false} UnboundedNumberAccepted(num: real)
    ensures SanitizeNumber(num, None, None) == Ok(num)
  {
  }

  /** The shape `(ddd) ddd-dddd`. */
  predicate PhoneShape(p: string)
  {
    && |p| == 14 && p[0] == '(' && p[4] == ')' && p[5] == ' ' && p[9] == '-'
    && AllDigits(p[1..4]) && AllDigits(p[6..9]) && AllDigits(p[10..])
  }

  /** The template literal `(${d[0..3]}) ${d[3..6]}-${d[6..]}` over exactly
      ten digits. Its digits are the given digits in order. */
  function PhoneFormat(d: string): (p: string)
    requires |d| == 10 && AllDigits(d)
    ensures PhoneShape(p)
    ensures Digits(p) == d
  {
    var p := "(" + d[..3] + ") " + d[3..6] + "-" + d[6..];
    assert p[1..4] == d[..3] && p[6..9] == d[3..6] && p[10..] == d[6..];
    PhoneFormatDigits(d);
    p
  }

  lemma {:induction false} PhoneFormatDigits(d: string)
    requires |d| == 10 && AllDigits(d)
    ensures Digits("(" + d[..3] + ") " + d[3..6] + "-" + d[6..]) == d
  {
    PunctuationHasNoDigits();
    OpenedDigits(d[..3]);
    AppendDigits("(" + d[..3], ") ", d[3..6]);
    AppendDigits("(" + d[..3] + ") " + d[3..6], "-", d[6..]);
    assert d[..3] + d[3..6] + d[6..] == d;
  }

  /** `sanitizePhone`: empty input gives `""`; otherwise the digits of the
      input must number exactly ten (else `InvalidPhone` is thrown) and are
      returned in the 14-character form. */
  function SanitizePhone(phone: string): (r: Result<string, Failure>)
    ensures phone == "" ==> r == Ok("")
    ensures phone != "" ==> (r.Ok? <==> |Digits(phone)| == 10)
    ensures r.Err? ==> r.error == InvalidPhone
    ensures phone != "" && r.Ok? ==> PhoneShape(r.value) && Digits(r.value) == Digits(phone)
  {
    if phone == "" then Ok("")
    else
      var digits := Digits(phone);
      if |digits| != 10 then Err(InvalidPhone) else Ok(PhoneFormat(digits))
  }

  /** Formatting a formatted number again leaves it unchanged. */
  lemma {:induction false} SanitizePhoneIdempotent(phone: string)
    requires SanitizePhone(phone).Ok?
    ensures SanitizePhone(SanitizePhone(phone).value) == SanitizePhone(phone)
  {
  }

  /** `sanitizeZipCode`: empty input gives `""`; otherwise the digits of
      the input must number exactly five (else `InvalidZip` is thrown) and
      are returned. */
  function SanitizeZipCode(zip: string): (r: Result<string, Failure>)
    ensures zip == "" ==> r == Ok("")
    ensures zip != "" ==> (r.Ok? <==> |Digits(zip)| == 5)
    ensures r.Err? ==> r.error == InvalidZip
    ensures zip != "" && r.Ok? ==> r.value == Digits(zip) && |r.value| == 5
  {
    if zip == "" then Ok("")
    else
      var digits := Digits(zip);
      if |digits| != 5 then Err(InvalidZip) else Ok(digits)
  }

  /** A normalised zip code normalises to itself. */
  lemma {:induction false} SanitizeZipCodeIdempotent(zip: string)
    requires SanitizeZipCode(zip).Ok?
    ensures SanitizeZipCode(SanitizeZipCode(zip).value) == SanitizeZipCode(zip)
  {
    if zip != "" {
      DigitsOfDigits(Digits(zip));
    }
  }
}
