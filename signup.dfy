/** The charity sign-up page of `app/signup/page.tsx`: the password rules
    checked before an account is created, the as-you-type phone formatter,
    and the form's submit handler with the charity record it stores. The
    auth provider and the database are inputs. */
module Signup {
  import opened Wrappers
  import opened Text
  import Sanitize

  // ----- password rules -----------------------------------------------------

  datatype PasswordProblem = Mismatch | TooShort

  const MinPasswordLength: nat := 8

  /** The message shown for each problem. */
  function ProblemMessage(p: PasswordProblem): string
  {
    match p
    case Mismatch => "Passwords do not match"
    case TooShort => "Password must be at least 8 characters"
  }

  /** The two checks of the submit handler, in their order: a mismatch is
      reported before the length. No problem exactly when the two entries
      agree and are at least eight characters long. */
  function PasswordProblemOf(password: string, confirm: string): (r: Option<PasswordProblem>)
    ensures r == None <==> password == confirm && |password| >= MinPasswordLength
    ensures password != confirm ==> r == Some(Mismatch)
    ensures r == Some(TooShort) <==> password == confirm && |password| < MinPasswordLength
  {
    if password != confirm then Some(Mismatch)
    else if |password| < MinPasswordLength then Some(TooShort)
    else None
  }

  // ----- phone formatter ----------------------------------------------------

  /** `s.substring(start, end)` for `start <= end`: both ends are clamped to
      the length. */
  function Substring(s: string, start: nat, end: nat): (r: string)
    requires start <= end
    ensures start <= |s| ==> r == s[start..if end <= |s| then end else |s|]
    ensures start > |s| ==> r == ""
  {
    if start > |s| then "" else s[start..if end <= |s| then end else |s|]
  }

  /** The formatted text for a string of digits, one case per number of
      digits typed so far: `(d`, `(ddd) d`, `(ddd) ddd-d`, digits past the
      tenth dropped. */
  function PhoneMask(d: string): string
  {
    if |d| == 0 then ""
    else if |d| <= 3 then "(" + d
    else if |d| <= 6 then "(" + d[..3] + ") " + d[3..]
    else "(" + d[..3] + ") " + d[3..6] + "-" + Take(d[6..], 4)
  }

  /** The `onChange` handler of the phone field: strip non-digits, then
      build the text in up to three appends. */
  method FormatPhoneInput(value: string) returns (formatted: string)
    ensures formatted == PhoneMask(Digits(value))
  {
    var input := Digits(value);
    formatted := "";
    if |input| > 0 {
      formatted := "(" + Substring(input, 0, 3);
    }
    if |input| >= 4 {
      formatted := formatted + ") " + Substring(input, 3, 6);
    }
    if |input| >= 7 {
      formatted := formatted + "-" + Substring(input, 6, 10);
    }
  }

  /** The formatter keeps exactly the first ten digits, in order. */
  lemma {:induction false} PhoneMaskKeepsDigits(d: string)
    requires AllDigits(d)
    ensures Digits(PhoneMask(d)) == Take(d, 10)
  {
    PunctuationHasNoDigits();
    if |d| == 0 {
    } else if |d| <= 3 {
      OpenedDigits(d);
    } else if |d| <= 6 {
      OpenedDigits(d[..3]);
      AppendDigits("(" + d[..3], ") ", d[3..]);
      assert d == d[..3] + d[3..];
    } else {
      var tail := Take(d[6..], 4);
      assert AllDigits(tail) by {
        assert forall k :: 0 <= k < |tail| ==> tail[k] == d[6..][k];
      }
      OpenedDigits(d[..3]);
      AppendDigits("(" + d[..3], ") ", d[3..6]);
      AppendDigits("(" + d[..3] + ") " + d[3..6], "-", tail);
      assert d[..3] + d[3..6] + tail == Take(d, 10);
    }
  }

  /** The formatted text never exceeds the field's 14-character limit. */
  lemma {:induction false} PhoneMaskFitsField(d: string)
    ensures |PhoneMask(d)| <= 14
  {
  }

  /** Input with no digits clears the field. */
  lemma {:induction false} PhoneMaskOfNoDigits(value: string)
    requires Digits(value) == ""
    ensures PhoneMask(Digits(value)) == ""
  {
  }

  /** With exactly ten digits the formatter produces the same text as the
      server-side phone normaliser. */
  lemma {:induction false} PhoneMaskAgreesWithSanitizePhone(value: string)
    requires |Digits(value)| == 10
    ensures Sanitize.SanitizePhone(value) == Ok(PhoneMask(Digits(value)))
  {
    var d := Digits(value);
    assert Take(d[6..], 4) == d[6..];
  }

  /** The mask looks only at the first ten digits. */
  lemma {:induction false} PhoneMaskUsesTenDigits(d: string)
    ensures PhoneMask(Take(d, 10)) == PhoneMask(d)
  {
    if |d| > 10 {
      var t := Take(d, 10);
      assert t[..3] == d[..3] && t[3..6] == d[3..6];
      assert Take(t[6..], 4) == Take(d[6..], 4);
    }
  }

  /** Reformatting the field's own text leaves it unchanged. */
  lemma {:induction false} PhoneMaskIdempotent(value: string)
    ensures PhoneMask(Digits(PhoneMask(Digits(value)))) == PhoneMask(Digits(value))
  {
    var d := Digits(value);
    PhoneMaskKeepsDigits(d);
    PhoneMaskUsesTenDigits(d);
  }

  // ----- submit handler -----------------------------------------------------

  /** The charity row created at sign-up. */
  datatype Charity = Charity(name: string, contactEmail: string, address: string, phone: string,
                             verified: bool, userId: Option<string>)

  /** The new-charity record: the form's fields, the new account's id, and
      `verified` always false, awaiting an administrator. The tax id the
      form collects is not stored. */
  function NewCharity(name: string, contactEmail: string, address: string, phone: string,
                      userId: Option<string>): (c: Charity)
    ensures !c.verified
    ensures c.name == name && c.contactEmail == contactEmail && c.address == address
            && c.phone == phone && c.userId == userId
  {
    Charity(name, contactEmail, address, phone, false, userId)
  }

  /** What `auth.signUp` answers: an error message, or the new user's id
      (which may be absent). */
  datatype SignUpReply = SignUpFailed(message: string) | SignedUp(userId: Option<string>)

  const CharityFailedMessage: string := "Error creating charity profile. Please contact support."

  class SignupForm {
    var charityName: string
    var ein: string
    var contactEmail: string
    var password: string
    var confirmPassword: string
    var address: string
    var phone: string
    var isLoading: bool
    var error: string
    /** Email and password of each `auth.signUp` call, oldest first. */
    var signUps: seq<(string, string)>
    /** Rows the handler asked `charities` to insert, oldest first. */
    var inserted: seq<Charity>
    /** The paths handed to `router.push`, oldest first. */
    var pushed: seq<string>

    /** The empty form. */
    constructor ()
      ensures charityName == "" && ein == "" && contactEmail == "" && password == ""
      ensures confirmPassword == "" && address == "" && phone == ""
      ensures !isLoading && error == ""
      ensures signUps == [] && inserted == [] && pushed == []
    {
      charityName, ein, contactEmail, password, confirmPassword, address, phone := "", "", "", "", "", "", "";
      isLoading, error := false, "";
      signUps, inserted, pushed := [], [], [];
    }

    /** `handleSignup`: validate the passwords, create the account, insert
        the charity row, then go to the login page. Every failure shows its
        message and clears `isLoading`; on success `isLoading` stays set
        while the browser navigates away. The form's fields are unchanged. */
    method HandleSignup(reply: SignUpReply, insertFails: bool)
      modifies this
      ensures charityName == old(charityName) && ein == old(ein) && contactEmail == old(contactEmail)
      ensures password == old(password) && confirmPassword == old(confirmPassword)
      ensures address == old(address) && phone == old(phone)
      ensures PasswordProblemOf(password, confirmPassword).Some? ==>
                && error == ProblemMessage(PasswordProblemOf(password, confirmPassword).value) && !isLoading
                && signUps == old(signUps) && inserted == old(inserted) && pushed == old(pushed)
      ensures PasswordProblemOf(password, confirmPassword).None? ==>
                signUps == old(signUps) + [(contactEmail, password)]
      ensures PasswordProblemOf(password, confirmPassword).None? && reply.SignUpFailed? ==>
                error == reply.message && !isLoading && inserted == old(inserted) && pushed == old(pushed)
      ensures PasswordProblemOf(password, confirmPassword).None? && reply.SignedUp? ==>
                inserted == old(inserted) + [NewCharity(charityName, contactEmail, address, phone, reply.userId)]
      ensures PasswordProblemOf(password, confirmPassword).None? && reply.SignedUp? && insertFails ==>
                error == CharityFailedMessage && !isLoading && pushed == old(pushed)
      ensures PasswordProblemOf(password, confirmPassword).None? && reply.SignedUp? && !insertFails ==>
                error == "" && isLoading && pushed == old(pushed) + ["/login"]
    {
      isLoading := true;
      error := "";
      if password != confirmPassword {
        error := ProblemMessage(Mismatch);
        isLoading := false;
        return;
      }
      if |password| < MinPasswordLength {
        error := ProblemMessage(TooShort);
        isLoading := false;
        return;
      }
      signUps := signUps + [(contactEmail, password)];
      match reply {
        case SignUpFailed(message) =>
          error := message;
          isLoading := false;
          return;
        case SignedUp(userId) =>
          inserted := inserted + [NewCharity(charityName, contactEmail, address, phone, userId)];
          if insertFails {
            error := CharityFailedMessage;
            isLoading := false;
            return;
          }
          pushed := pushed + ["/login"];
      }
    }
  }

  /** Sign-up gets past validation, and an account is requested, exactly
      when the two entries agree and are at least eight characters long;
      every charity row it stores is unverified. */
  method SubmitOnce(password: string, confirm: string, reply: SignUpReply, insertFails: bool)
    returns (requested: bool, stored: seq<Charity>)
    ensures requested <==> password == confirm && |password| >= MinPasswordLength
    ensures forall i :: 0 <= i < |stored| ==> !stored[i].verified
    ensures |stored| == (if requested && reply.SignedUp? then 1 else 0)
  {
    var form := new SignupForm();
    form.password, form.confirmPassword := password, confirm;
    form.HandleSignup(reply, insertFails);
    requested := form.signUps != [];
    stored := form.inserted;
  }
}
