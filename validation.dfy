/** The sign-up field validators (src/utilities/validation.ts). */
module Validation {
  import opened Common

  /** `{ isValid, message }` */
  datatype Check = Check(isValid: bool, message: string)

  const PasswordTooShort := "Password must be at least 6 characters long"
  const UsernameTooShort := "Username must be at least 3 characters long"
  const UsernameBadChars := "Username can only contain letters, numbers, and underscores"
  const FullNameTooShort := "Full name must be at least 2 characters long"

  /** The class `[0-9]{9}`, nine characters long. */
  predicate NineDigits(s: string)
  {
    |s| == 9 && forall i :: 0 <= i < |s| ==> IsDigit(s[i])
  }

  /** `/^\+998[0-9]{9}$/.test(phone)`: the literal prefix, then the
      anchored digit run. */
  predicate ValidatePhone(phone: string)
  {
    StartsWith(phone, "+998") && NineDigits(phone[4..])
  }

  /** A phone passes exactly when it is `+998` glued to nine digits, and then
      it is 13 characters long. */
  lemma PhoneShape(phone: string)
    ensures ValidatePhone(phone) <==> exists d :: NineDigits(d) && phone == "+998" + d
    ensures ValidatePhone(phone) ==> |phone| == 13
  {
    if ValidatePhone(phone) {
      assert phone == "+998" + phone[4..];
    }
    if exists d :: NineDigits(d) && phone == "+998" + d {
      var d :| NineDigits(d) && phone == "+998" + d;
      assert phone[..4] == "+998" && phone[4..] == d;
    }
  }

  lemma ShortNumberRejected()
    ensures !ValidatePhone("12345")
    ensures !ValidatePhone("998901234567")
    ensures ValidatePhone("+998901234567")
  {
    assert "+998901234567"[..4] == "+998";
    assert "+998901234567"[4..] == "901234567";
  }

  function ValidatePassword(password: string): (r: Check)
    ensures r.isValid <==> |password| >= 6
    ensures r.isValid <==> r.message == ""
    ensures !r.isValid ==> r.message == PasswordTooShort
  {
    if |password| < 6 then Check(false, PasswordTooShort) else Check(true, "")
  }

  /** `[a-zA-Z0-9_]` */
  predicate IsUsernameChar(c: char)
  {
    ('a' <= c <= 'z') || ('A' <= c <= 'Z') || IsDigit(c) || c == '_'
  }

  function ValidateUsername(username: string): (r: Check)
    ensures r.isValid <==> |username| >= 3 && forall i :: 0 <= i < |username| ==> IsUsernameChar(username[i])
    ensures r.isValid <==> r.message == ""
    ensures |username| < 3 ==> r.message == UsernameTooShort
    ensures |username| >= 3 && !r.isValid ==> r.message == UsernameBadChars
  {
    if |username| < 3 then Check(false, UsernameTooShort)
    else if !(forall i :: 0 <= i < |username| ==> IsUsernameChar(username[i])) then Check(false, UsernameBadChars)
    else Check(true, "")
  }

  function ValidateFullName(fullName: string): (r: Check)
    ensures r.isValid <==> |fullName| >= 2
    ensures r.isValid <==> r.message == ""
    ensures !r.isValid ==> r.message == FullNameTooShort
  {
    if |fullName| < 2 then Check(false, FullNameTooShort) else Check(true, "")
  }

  /** The length rule is checked first: a short name with illegal characters
      reports the length message; nothing is trimmed, so two spaces make a
      full name. */
  lemma RuleOrder()
    ensures ValidateUsername("a-").message == UsernameTooShort
    ensures ValidateUsername("a-b").message == UsernameBadChars
    ensures ValidateFullName("  ").isValid
  {
    assert !IsUsernameChar("a-b"[1]);
  }
}
