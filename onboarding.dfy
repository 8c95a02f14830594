/**
 * The emergency-contact step of onboarding: the phone and name validators
 * and the accept handler that only sends the profile when both pass.
 */
module Onboarding {

  /**
   * A character `String.prototype.trim` removes: the ECMAScript WhiteSpace
   * and LineTerminator code points.
   */
  predicate IsJsSpace(c: char)
  {
    || ('\U{0009}' <= c <= '\U{000D}')   // tab, line feed, vertical tab, form feed, carriage return
    || c == ' ' || c == '\U{00A0}' || c == '\U{1680}'
    || ('\U{2000}' <= c <= '\U{200A}')
    || c == '\U{2028}' || c == '\U{2029}' || c == '\U{202F}' || c == '\U{205F}'
    || c == '\U{3000}' || c == '\U{FEFF}'
  }

  /** Nothing but white space (the empty string included). */
  predicate Blank(s: string)
  {
    forall k :: 0 <= k < |s| ==> IsJsSpace(s[k])
  }

  function TrimStart(s: string): (r: string)
    ensures |r| <= |s|
    ensures r != [] ==> !IsJsSpace(r[0])
  {
    if s != [] && IsJsSpace(s[0]) then TrimStart(s[1..]) else s
  }

  function TrimEnd(s: string): (r: string)
    ensures |r| <= |s|
    ensures r != [] ==> !IsJsSpace(r[|r| - 1])
  {
    if s != [] && IsJsSpace(s[|s| - 1]) then TrimEnd(s[..|s| - 1]) else s
  }

  /** trimStart only removes a run of leading white space. */
  lemma {:induction false} TrimStartDropsLeadingSpace(s: string)
    ensures TrimStart(s) == s[|s| - |TrimStart(s)|..]
    ensures forall k :: 0 <= k < |s| - |TrimStart(s)| ==> IsJsSpace(s[k])
  {
    if s != [] && IsJsSpace(s[0]) {
      TrimStartDropsLeadingSpace(s[1..]);
      assert forall k :: 1 <= k < |s| ==> s[k] == s[1..][k - 1];
    }
  }

  /** trimEnd only removes a run of trailing white space. */
  lemma {:induction false} TrimEndDropsTrailingSpace(s: string)
    ensures TrimEnd(s) == s[..|TrimEnd(s)|]
    ensures forall k :: |TrimEnd(s)| <= k < |s| ==> IsJsSpace(s[k])
  {
    if s != [] && IsJsSpace(s[|s| - 1]) {
      TrimEndDropsTrailingSpace(s[..|s| - 1]);
    }
  }

  /** `s.trim()`. */
  function Trim(s: string): string
  {
    TrimEnd(TrimStart(s))
  }

  /** trim() leaves nothing exactly when the string is all white space. */
  lemma {:induction false} TrimEmptyIffBlank(s: string)
    ensures |Trim(s)| == 0 <==> Blank(s)
  {
    TrimStartEmptyIffBlank(s);
    var t := TrimStart(s);
    if t != [] {
      assert |TrimEnd(t)| > 0 by {
        TrimEndKeepsFirst(t);
      }
    }
  }

  lemma {:induction false} TrimStartEmptyIffBlank(s: string)
    ensures TrimStart(s) == [] <==> Blank(s)
  {
    if s != [] && IsJsSpace(s[0]) {
      TrimStartEmptyIffBlank(s[1..]);
      assert forall k :: 1 <= k < |s| ==> s[k] == s[1..][k - 1];
    }
  }

  /** A string whose first character is not white space keeps a character through TrimEnd. */
  lemma {:induction false} TrimEndKeepsFirst(t: string)
    requires t != [] && !IsJsSpace(t[0])
    ensures TrimEnd(t) != []
  {
    if IsJsSpace(t[|t| - 1]) {
      TrimEndKeepsFirst(t[..|t| - 1]);
    }
  }

  predicate IsPhoneChar(c: char)
  {
    ('0' <= c <= '9') || c == '+'
  }

  /** `phone.replace(/[^0-9+]/g, '')`. */
  function PhoneChars(s: string): (r: string)
    ensures |r| <= |s|
    ensures forall k :: 0 <= k < |r| ==> IsPhoneChar(r[k])
  {
    if s == [] then []
    else if IsPhoneChar(s[0]) then [s[0]] + PhoneChars(s[1..])
    else PhoneChars(s[1..])
  }

  lemma {:induction false} PhoneCharsAppend(a: string, b: string)
    ensures PhoneChars(a + b) == PhoneChars(a) + PhoneChars(b)
  {
    if a == [] {
      assert a + b == b;
    } else {
      assert (a + b)[1..] == a[1..] + b;
      PhoneCharsAppend(a[1..], b);
    }
  }

  /** Every digit and '+' survives the replace, in order. */
  lemma {:induction false} PhoneCharsKeepsPhone(s: string)
    requires forall k :: 0 <= k < |s| ==> IsPhoneChar(s[k])
    ensures PhoneChars(s) == s
  {
    if s != [] {
      PhoneCharsKeepsPhone(s[1..]);
      assert [s[0]] + s[1..] == s;
    }
  }

  /** Text with no digit and no '+' is replaced by nothing. */
  lemma {:induction false} PhoneCharsDropsOthers(s: string)
    requires forall k :: 0 <= k < |s| ==> !IsPhoneChar(s[k])
    ensures PhoneChars(s) == []
  {
    if s != [] {
      PhoneCharsDropsOthers(s[1..]);
    }
  }

  const PHONE_REQUIRED: string := "Phone is required"
  const PHONE_INVALID: string := "Enter a valid phone number"
  const PHONE_TOO_LONG: string := "Phone number too long"
  const NAME_REQUIRED: string := "Contact name is required"
  const MIN_PHONE: nat := 7
  const MAX_PHONE: nat := 15

  /** validatePhone; the text field always holds a string, so `!phone` is the empty case. */
  function ValidatePhone(phone: string): (r: string)
    ensures r == "" || r == PHONE_REQUIRED || r == PHONE_INVALID || r == PHONE_TOO_LONG
  {
    if |phone| == 0 || |Trim(phone)| == 0 then PHONE_REQUIRED
    else
      var digits := PhoneChars(phone);
      if |digits| < MIN_PHONE then PHONE_INVALID
      else if |digits| > MAX_PHONE then PHONE_TOO_LONG
      else ""
  }

  function ValidateName(name: string): (r: string)
    ensures r == "" || r == NAME_REQUIRED
  {
    if |name| == 0 || |Trim(name)| == 0 then NAME_REQUIRED else ""
  }

  /** Each message of validatePhone, and its acceptance, by what the input holds. */
  lemma ValidatePhoneCases(phone: string)
    ensures ValidatePhone(phone) == PHONE_REQUIRED <==> Blank(phone)
    ensures ValidatePhone(phone) == PHONE_INVALID <==> !Blank(phone) && |PhoneChars(phone)| < MIN_PHONE
    ensures ValidatePhone(phone) == PHONE_TOO_LONG <==> !Blank(phone) && |PhoneChars(phone)| > MAX_PHONE
    ensures ValidatePhone(phone) == "" <==>
      !Blank(phone) && MIN_PHONE <= |PhoneChars(phone)| <= MAX_PHONE
  {
    TrimEmptyIffBlank(phone);
    MessagesDistinct();
  }

  /** The four outcomes of validatePhone are told apart by their lengths. */
  lemma MessagesDistinct()
    ensures |PHONE_REQUIRED| == 17 && |PHONE_TOO_LONG| == 21 && |PHONE_INVALID| == 26
  {
  }

  /** validateName accepts exactly the names with a non-space character. */
  lemma ValidateNameCases(name: string)
    ensures ValidateName(name) == "" <==> !Blank(name)
    ensures ValidateName(name) == NAME_REQUIRED <==> Blank(name)
  {
    TrimEmptyIffBlank(name);
  }

  /** Spaces, dashes and brackets in a number that is not blank never change the verdict. */
  lemma FormattingIgnored(a: string, x: char, b: string)
    requires !IsPhoneChar(x) && !Blank(a + b)
    ensures ValidatePhone(a + [x] + b) == ValidatePhone(a + b)
  {
    PhoneCharsSkip(a, x, b);
    StillNotBlank(a, x, b);
    ValidatePhoneCases(a + b);
    ValidatePhoneCases(a + [x] + b);
  }

  lemma PhoneCharsSkip(a: string, x: char, b: string)
    requires !IsPhoneChar(x)
    ensures PhoneChars(a + [x] + b) == PhoneChars(a + b)
  {
    PhoneCharsAppend(a + [x], b);
    PhoneCharsAppend(a, [x]);
    PhoneCharsAppend(a, b);
    assert PhoneChars([x]) == [];
    assert PhoneChars(a) + [] == PhoneChars(a);
  }

  lemma StillNotBlank(a: string, x: char, b: string)
    requires !Blank(a + b)
    ensures !Blank(a + [x] + b)
  {
    var k :| 0 <= k < |a + b| && !IsJsSpace((a + b)[k]);
    if k < |a| {
      assert (a + [x] + b)[k] == (a + b)[k];
    } else {
      assert (a + [x] + b)[k + 1] == (a + b)[k];
    }
  }

  /** The profile handleAccept sends. */
  datatype Profile = Profile(
    firstName: string, lastName: string,
    contactName: string, contactPhone: string,
    medicalCondition: string, experience: string)

  /** The form's state, and what handleAccept has set in motion. */
  class DetailsForm {
    var experience: string
    var contactPhone: string
    var contactPhoneError: string
    var contactName: string
    var contactNameError: string
    var medicalCondition: string
    /** Every profile handed to sendProfile, in order. */
    var sentProfiles: seq<Profile>
    /** How many times onShowReminder has run. */
    var reminders: nat

    constructor()
      ensures experience == "Beginner"
      ensures contactPhone == "" && contactPhoneError == ""
      ensures contactName == "" && contactNameError == ""
      ensures medicalCondition == "" && sentProfiles == [] && reminders == 0
    {
      experience := "Beginner";
      contactPhone := "";
      contactPhoneError := "";
      contactName := "";
      contactNameError := "";
      medicalCondition := "";
      sentProfiles := [];
      reminders := 0;
    }

    /** The profile built from the form's fields. */
    function CurrentProfile(): Profile
      reads this
    {
      Profile("", "", contactName, contactPhone, medicalCondition, experience)
    }

    /**
     * handleAccept. A failing validator sets its own error (a passing one's
     * error is left as it was) and nothing is sent; otherwise both errors
     * are cleared, the profile is sent, and the reminder is shown once the
     * send settles, whether it succeeded or not.
     */
    method HandleAccept()
      modifies this`contactPhoneError, this`contactNameError, this`sentProfiles, this`reminders
      ensures ValidateName(old(contactName)) != "" ==> contactNameError == ValidateName(old(contactName))
      ensures ValidatePhone(old(contactPhone)) != "" ==> contactPhoneError == ValidatePhone(old(contactPhone))
      ensures ValidateName(old(contactName)) == "" && ValidatePhone(old(contactPhone)) != "" ==>
        contactNameError == old(contactNameError)
      ensures ValidatePhone(old(contactPhone)) == "" && ValidateName(old(contactName)) != "" ==>
        contactPhoneError == old(contactPhoneError)
      ensures ValidateName(old(contactName)) != "" || ValidatePhone(old(contactPhone)) != "" ==>
        sentProfiles == old(sentProfiles) && reminders == old(reminders)
      ensures ValidateName(old(contactName)) == "" && ValidatePhone(old(contactPhone)) == "" ==>
        && contactNameError == "" && contactPhoneError == ""
        && sentProfiles == old(sentProfiles) + [CurrentProfile()]
        && reminders == old(reminders) + 1
    {
      var errPhone := ValidatePhone(contactPhone);
      var errName := ValidateName(contactName);
      if errName != "" {
        contactNameError := errName;
      }
      if errPhone != "" {
        contactPhoneError := errPhone;
      }
      if errName != "" || errPhone != "" {
        return;
      }
      contactPhoneError := "";
      contactNameError := "";
      sentProfiles := sentProfiles + [CurrentProfile()];
      // `.then` (whatever `ok` is) and `.catch` both call onShowReminder
      reminders := reminders + 1;
    }
  }

  /** The profile goes out exactly when the contact name and phone both validate. */
  lemma AcceptGate(name: string, phone: string)
    ensures ValidateName(name) == "" && ValidatePhone(phone) == "" <==>
      !Blank(name) && !Blank(phone) && MIN_PHONE <= |PhoneChars(phone)| <= MAX_PHONE
  {
    ValidateNameCases(name);
    ValidatePhoneCases(phone);
  }
}
