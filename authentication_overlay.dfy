/**
 * The email gate shown before the chat: an address and a privacy checkbox,
 * and a Continue button that hands the address to the parent. The two
 * inputs are only ever written by their own setters, so they are parameters
 * here, and the handler is a function from them to the call it makes.
 */
module AuthenticationOverlay {
  import opened Wrappers
  import opened Text
  import opened Validators
  import SalesDialog

  /**
   * handleAuthenticate: `Some(e)` when it calls onAuthenticate(e), `None`
   * when it does nothing. Only an address of the accepted shape ever
   * reaches the parent, and it reaches it exactly as typed.
   */
  function Authenticate(email: string, acceptedPrivacy: bool): (call: Option<string>)
    ensures call.Some? <==> ValidEmail(email) && acceptedPrivacy
    ensures call.Some? ==> call.value == email && EmailShape(call.value)
  {
    if ValidEmail(email) && acceptedPrivacy then
      ValidEmailIffRegex(email);
      EmailRegexIffShape(email);
      Some(email)
    else
      None
  }

  /**
   * The Continue button's `disabled` expression: the button is disabled
   * exactly when clicking it would call nothing, and an enabled button
   * means an address with no white space in it.
   */
  predicate ContinueDisabled(email: string, acceptedPrivacy: bool)
    ensures ContinueDisabled(email, acceptedPrivacy) <==> Authenticate(email, acceptedPrivacy).None?
    ensures !ContinueDisabled(email, acceptedPrivacy) ==> forall k :: 0 <= k < |email| ==> !IsJsSpace(email[k])
  {
    !ValidEmail(email) || !acceptedPrivacy
  }

  /** Without the privacy box ticked no address gets through, however well formed. */
  lemma PrivacyRequired(email: string)
    ensures Authenticate(email, false) == None
  {
  }

  /** With the box ticked, the gate lets through exactly the addresses the lead form accepts without an error. */
  lemma SameAddressesAsLeadForm(email: string)
    ensures Authenticate(email, true).Some? <==> SalesDialog.EmailError(email) == ""
  {
  }
}
