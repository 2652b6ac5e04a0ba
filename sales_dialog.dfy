/**
 * The lead-capture form: three text fields, three error messages computed
 * by one validation pass that never stops early, and a submit that hands the
 * raw field values to the parent only when the pass succeeds.
 */
module SalesDialog {
  import opened Wrappers
  import opened Text
  import opened Validators

  const NameRequired: string := "Name is required"
  const EmailRequired: string := "Email is required"
  const EmailInvalid: string := "Please enter a valid email address"
  const PhoneRequired: string := "Phone number is required"
  const PhoneInvalid: string := "Please enter a valid UK mobile number"

  /** An accepted address is never blank. */
  lemma ValidEmailNotBlank(email: string)
    requires ValidEmail(email)
    ensures Trim(email) != []
  {
    TrimEmptyIff(email);
    if email != [] {
      assert !IsJsSpace(email[0]);
    }
  }

  /** A name, address or phone is blank when every character of it is white space (the empty text included). */
  predicate Blank(s: string)
  {
    forall k :: 0 <= k < |s| ==> IsJsSpace(s[k])
  }

  /** The name's error: required when blank, otherwise none. */
  function NameError(name: string): (e: string)
    ensures e == NameRequired <==> Blank(name)
    ensures e == "" <==> !Blank(name)
  {
    TrimEmptyIff(name);
    if Trim(name) == [] then NameRequired else ""
  }

  /**
   * The email's error: blankness is judged on the trimmed text, but the
   * format on the raw text.
   */
  function EmailError(email: string): (e: string)
    ensures e == "" <==> ValidEmail(email)
    ensures e == EmailRequired <==> Blank(email)
    ensures e == EmailInvalid <==> !Blank(email) && !ValidEmail(email)
  {
    TrimEmptyIff(email);
    if Trim(email) == [] then EmailRequired
    else if !ValidEmail(email) then EmailInvalid
    else ""
  }

  /** The phone's error: both blankness and format are judged on the trimmed text. */
  function PhoneError(phone: string): (e: string)
    ensures e == "" <==> ValidPhone(phone)
    ensures e == PhoneRequired <==> Blank(phone)
    ensures e == PhoneInvalid <==> !Blank(phone) && !ValidPhone(phone)
  {
    TrimEmptyIff(phone);
    if Trim(phone) == [] then PhoneRequired
    else if !ValidPhone(phone) then PhoneInvalid
    else ""
  }

  /** The three fields pass; then none of them is blank. */
  predicate FormValid(name: string, email: string, phone: string)
    ensures FormValid(name, email, phone) ==> !Blank(name) && !Blank(email) && !Blank(phone)
  {
    TrimEmptyIff(name);
    TrimEmptyIff(email);
    TrimEmptyIff(phone);
    if Trim(name) != [] && ValidEmail(email) && ValidPhone(phone) then
      ValidEmailNotBlank(email);
      true
    else
      false
  }

  /** The form passes exactly when no field has an error. */
  lemma FormValidIffNoErrors(name: string, email: string, phone: string)
    ensures FormValid(name, email, phone) <==> NameError(name) == "" && EmailError(email) == "" && PhoneError(phone) == ""
  {
  }

  /**
   * An address with whitespace in it but not only whitespace (surrounding
   * spaces included) is reported as badly formed, not as missing.
   */
  lemma SpacedEmailIsInvalidNotMissing(email: string, k: nat)
    requires k < |email| && IsJsSpace(email[k]) && !Blank(email)
    ensures EmailError(email) == EmailInvalid
  {
  }

  /** A leading space fails the email, whose format is checked on the raw text. */
  lemma PaddedEmailExample()
    ensures EmailError(" a@b.com") == EmailInvalid
  {
    assert !IsJsSpace(" a@b.com"[1]);
    SpacedEmailIsInvalidNotMissing(" a@b.com", 0);
  }

  /** A leading space does not fail the phone, whose format is checked after trimming. */
  lemma PaddedPhoneExample()
    ensures PhoneError(" 07123456789") == ""
  {
    var t := " 07123456789";
    assert t[1..] == "07123456789";
    assert TrimStart(t) == TrimStart(t[1..]);
    assert Trim(t) == Trim(t[1..]);
    NationalPhoneExample();
  }

  /** A short name and a good number do not save a malformed address: one error, the email's. */
  lemma MalformedEmailExample()
    ensures NameError("Jo") == "" && EmailError("bad") == EmailInvalid && PhoneError("07123456789") == ""
    ensures !FormValid("Jo", "bad", "07123456789")
  {
    assert !IsJsSpace("Jo"[0]);
    BadEmailExample();
    NationalPhoneExample();
  }

  lemma BadEmailExample()
    ensures !Blank("bad") && !ValidEmail("bad")
  {
    assert !IsJsSpace("bad"[0]);
    assert IndexOfAt("bad") == 3;
  }

  lemma NationalPhoneExample()
    ensures ValidPhone("07123456789")
  {
    var p := PhoneParse(National, "123", None, "456", None, "789");
    assert Spell(p) == "07123456789";
    SpelledPhoneValid(p);
  }

  /** A complete lead in the international format passes. */
  lemma ValidLeadExample()
    ensures FormValid("Jo", "a@b.com", "+447123456789")
  {
    TrimNoSpaceAtEnds("Jo");
    ValidEmailExample();
    ValidPhoneExample();
  }

  lemma ValidEmailExample()
    ensures ValidEmail("a@b.com")
  {
    var s := "a@b.com";
    assert IndexOfAt(s) == 1;
    assert s[..1] == "a" && s[2..] == "b.com";
    assert AllAddressChars("a");
    assert "b.com"[1] == '.';
    assert AllAddressChars("b.com");
  }

  lemma ValidPhoneExample()
    ensures ValidPhone("+447123456789")
  {
    var p := PhoneParse(International(None), "123", None, "456", None, "789");
    assert Spell(p) == "+447123456789";
    SpelledPhoneValid(p);
  }

  /** What the parent's onSubmit receives. */
  datatype Lead = Lead(name: string, email: string, phone: string)

  class LeadForm {
    var name: string
    var email: string
    var phone: string
    var nameError: string
    var emailError: string
    var phoneError: string
    var isSubmitted: bool
    /** Every onSubmit call so far, in order. */
    var leads: seq<Lead>
    /** How many times onClose was called. */
    var closeCalls: nat
    /** Confirmation timers scheduled and not yet fired. */
    var pendingCloses: nat

    constructor ()
      ensures name == "" && email == "" && phone == ""
      ensures nameError == "" && emailError == "" && phoneError == ""
      ensures !isSubmitted && leads == [] && closeCalls == 0 && pendingCloses == 0
    {
      name, email, phone := "", "", "";
      nameError, emailError, phoneError := "", "", "";
      isSubmitted := false;
      leads := [];
      closeCalls, pendingCloses := 0, 0;
    }

    /** The name input's onChange; the error shown is left as it was. */
    method SetName(value: string)
      modifies this`name
      ensures name == value
    {
      name := value;
    }

    /** The email input's onChange; the error shown is left as it was. */
    method SetEmail(value: string)
      modifies this`email
      ensures email == value
    {
      email := value;
    }

    /** handlePhoneChange; the error shown is left as it was. */
    method SetPhone(value: string)
      modifies this`phone
      ensures phone == value
    {
      phone := value;
    }

    /**
     * validateForm: every field is checked, whatever the earlier ones gave,
     * and the result is whether none of them failed.
     */
    method ValidateForm() returns (isValid: bool)
      modifies this`nameError, this`emailError, this`phoneError
      ensures isValid <==> FormValid(name, email, phone)
      ensures nameError == NameError(name) && emailError == EmailError(email) && phoneError == PhoneError(phone)
    {
      isValid := true;

      if Trim(name) == [] {
        nameError := NameRequired;
        isValid := false;
      } else {
        nameError := "";
      }

      if Trim(email) == [] {
        emailError := EmailRequired;
        isValid := false;
      } else if !ValidEmail(email) {
        emailError := EmailInvalid;
        isValid := false;
      } else {
        emailError := "";
      }

      if Trim(phone) == [] {
        phoneError := PhoneRequired;
        isValid := false;
      } else if !ValidPhone(phone) {
        phoneError := PhoneInvalid;
        isValid := false;
      } else {
        phoneError := "";
      }
      assert isValid <==> nameError == "" && emailError == "" && phoneError == "";
      FormValidIffNoErrors(name, email, phone);
    }

    /**
     * handleSubmit: on a passing form the raw values go to onSubmit once,
     * the confirmation shows and its close timer starts; otherwise only the
     * error messages change.
     */
    method Submit()
      modifies this`nameError, this`emailError, this`phoneError, this`isSubmitted, this`leads, this`pendingCloses
      ensures nameError == NameError(name) && emailError == EmailError(email) && phoneError == PhoneError(phone)
      ensures FormValid(name, email, phone) ==>
        leads == old(leads) + [Lead(name, email, phone)] && isSubmitted && pendingCloses == old(pendingCloses) + 1
      ensures !FormValid(name, email, phone) ==>
        leads == old(leads) && isSubmitted == old(isSubmitted) && pendingCloses == old(pendingCloses)
    {
      var ok := ValidateForm();
      if ok {
        Accept();
      }
    }

    /** What a passing submit does after validation: one onSubmit call, the confirmation, its timer. */
    method Accept()
      modifies this`isSubmitted, this`leads, this`pendingCloses
      ensures leads == old(leads) + [Lead(name, email, phone)] && isSubmitted
      ensures pendingCloses == old(pendingCloses) + 1
    {
      leads := leads + [Lead(name, email, phone)];
      isSubmitted := true;
      pendingCloses := pendingCloses + 1;
    }

    /** The confirmation timer fires: the confirmation goes away and onClose is called. */
    method CloseTimerFires()
      requires pendingCloses > 0
      modifies this`isSubmitted, this`closeCalls, this`pendingCloses
      ensures !isSubmitted && closeCalls == old(closeCalls) + 1 && pendingCloses == old(pendingCloses) - 1
    {
      isSubmitted := false;
      closeCalls := closeCalls + 1;
      pendingCloses := pendingCloses - 1;
    }

    /** The Cancel button calls onClose and nothing else. */
    method Cancel()
      modifies this`closeCalls
      ensures closeCalls == old(closeCalls) + 1
    {
      closeCalls := closeCalls + 1;
    }
  }
}
