# Chat widget core, modelled in Dafny

This project models the behaviour inside three React components of an
embeddable chat widget:

- **The chat dialog** (`ChatDialogCapture`). It keeps a list of messages, a
  composer, a typing indicator and two overlay flags. Sending appends the
  user's message and schedules a scripted bot reply. A quick-reply chip
  sends its text and may open the sales form. Under every bot reply there
  is a feedback flow: thumbs up or down, then a reason from a catalog that
  depends on the rating, then (for "other") a free-text box capped at 600
  characters, then a canned acknowledgement that can be dismissed.
- **The lead-capture form** (`SalesDialog`). It has name, email and UK mobile
  fields. One validation pass sets all three error messages. A passing
  form hands the raw values to the parent and shows a confirmation that
  closes itself.
- **The email gate** (`AuthenticationOverlay`). An address and a privacy
  checkbox guard a Continue button.

Files:

- `wrappers.dfy`: `Option`, standing for `null`/`undefined`.
- `text.dfy`: JavaScript white space, `trim`, and `slice(0, n)`.
- `validators.dfy`: the email and phone patterns as hand-rolled recognisers, each proved equal to a direct reading of its pattern.
- `feedback_flow.dfy`: the message record, the catalogs, the six list-wide handlers, the panel cascade and the per-message state machine.
- `chat_dialog_capture.dfy`: the dialog's state as a class.
- `sales_dialog.dfy`: the error strings as functions and the form as a class.
- `authentication_overlay.dfy`: the gate as a function.

Timers are explicit completion methods. A counter of pending timers
guards each one. The ids the component draws from `Date.now()` are
parameters. The model does not take them to be unique, because the component does not
ensure it. The invariant lemmas state uniqueness as a hypothesis instead.

Some behaviours of the components are easy to misread:

- Dismissal is not final. Closing an acknowledgement resets the rating, the
  reason, the text and the submitted flag, and sets the dismissed flag. So a
  dismissed message is not a submitted one, and the rating buttons come back
  (`FeedbackFlow.DismissShowsRatingAgain`). A second round of feedback can be
  given, but it ends on an empty panel instead of an acknowledgement
  (`FeedbackFlow.DismissedStaysDismissed`).
- Cancel keeps the dismissed flag. After a dismissal, that flag stays true.
- Message ids are not unique. A click updates every message that shares the
  clicked message's id (`FeedbackFlow.SharedIdRatesBoth`).
- Field errors in the lead form change only when the form is submitted.
  Typing a correction does not clear them.
- A chip click clears the chips of the first message only, not of the
  message whose chip was clicked.

## Model

| member | source | states |
|---|---|---|
| Text.TrimStart | src/components/SalesDialog.tsx:27 | the leading part of `trim`: the result is no longer than the input and does not start with white space |
| Text.TrimEnd | src/components/SalesDialog.tsx:27 | the trailing part of `trim`: the result is no longer than the input and does not end with white space |
| Text.Trim | src/components/SalesDialog.tsx:27 | `trim`: the result is no longer than the input, and neither of its ends is white space |
| Text.TrimStartSpec | src/components/SalesDialog.tsx:27 | what the leading trim keeps is a suffix of the input, and everything it drops is white space |
| Text.TrimEndSpec | src/components/SalesDialog.tsx:27 | what the trailing trim keeps is a prefix of the input, and everything it drops is white space |
| Text.TrimEmptyIff | src/components/ChatDialogCapture.tsx:77 | a string trims to empty iff every character is white space, so the "is blank" tests are exactly "only white space" |
| Text.TrimNoSpaceAtEnds | src/components/SalesDialog.tsx:27 | a non-empty string with no white space at either end is its own trim |
| Text.Prefix | src/components/ChatDialogCapture.tsx:329 | `slice(0, n)` keeps `min(|s|, n)` characters, and they are the first ones |
| Text.PrefixIdempotent | src/components/ChatDialogCapture.tsx:329 | cutting twice is cutting once; a string already short enough is kept whole |
| Validators.ValidEmail | src/components/SalesDialog.tsx:20-22 | `validateEmail`, read as a split at the first '@': an accepted address holds no white space |
| Validators.ValidEmailSound | src/components/SalesDialog.tsx:20-22 | every address the recogniser accepts matches the email pattern |
| Validators.ValidEmailComplete | src/components/SalesDialog.tsx:20-22 | every split of an address into local part, host and suffix that the pattern allows makes the recogniser accept it |
| Validators.ValidEmailIffRegex | src/components/SalesDialog.tsx:20-22 | the recogniser accepts exactly the strings the email pattern matches |
| Validators.EmailRegexIffShape | src/components/SalesDialog.tsx:20-22 | the email pattern matches exactly the strings with no white space, one '@' after a non-empty local part, and a '.' in the domain that is neither its first nor last character |
| Validators.ParseGroups | src/components/SalesDialog.tsx:26 | reading the three groups succeeds only on three 3-digit groups with valid separators, and spells back exactly the text read |
| Validators.ParsePhone | src/components/SalesDialog.tsx:24-28 | a successful parse is well formed (prefix, three 3-digit groups, at most one space or hyphen per gap) and spells back exactly the text read |
| Validators.ParsePrefixOf | src/components/SalesDialog.tsx:26 | a prefix followed by a digit is read back as exactly that prefix |
| Validators.ParseGroupsOf | src/components/SalesDialog.tsx:26 | well-formed groups are read back from their own spelling |
| Validators.ParsePhoneComplete | src/components/SalesDialog.tsx:24-28 | every well-formed parse is recovered from its own spelling |
| Validators.SpellLength | src/components/SalesDialog.tsx:26 | every spelling the pattern allows has between 11 and 16 characters |
| Validators.ValidPhone | src/components/SalesDialog.tsx:24-28 | `validatePhone` matches the trimmed text, so an accepted phone trims to 11 to 16 characters |
| Validators.ValidPhoneIff | src/components/SalesDialog.tsx:24-28 | a phone passes iff its trimmed text is the spelling of some well-formed parse |
| Validators.SpelledPhoneValid | src/components/SalesDialog.tsx:24-28 | every well-formed spelling passes, surrounding white space aside |
| Validators.InternationalFormatAccepted | src/components/SalesDialog.tsx:25 | "+44 7123 456 789" passes |
| Validators.SpacedNationalFormatAccepted | src/components/SalesDialog.tsx:25 | "07123 456 789" passes |
| Validators.HyphenatedNationalFormatAccepted | src/components/SalesDialog.tsx:25 | "07123-456-789" passes |
| Validators.StripSeparatorsConcat | src/components/SalesDialog.tsx:26 | removing separators distributes over concatenation |
| Validators.NationalFormOfInternational | src/components/SalesDialog.tsx:26 | a number starting "+447" is read as the same number starting "07" |
| Validators.NormaliseSpell | src/components/SalesDialog.tsx:26 | any well-formed spelling, without separators and with "+44" read as "0", is "07" followed by its three groups |
| Validators.PhoneNormalForm | src/components/SalesDialog.tsx:24-28 | every accepted phone normalises to "07" followed by exactly nine digits |
| FeedbackFlow.ReasonIdsShape | src/components/ChatDialogCapture.tsx:35-53 | each rating offers seven reasons with distinct ids; the last is "other" and no other reason is |
| FeedbackFlow.Catalog | src/components/ChatDialogCapture.tsx:302 | the catalog a rating shows has seven entries carrying that rating's reason ids in button order |
| FeedbackFlow.CatalogShape | src/components/ChatDialogCapture.tsx:35-53 | no two entries of a catalog share an id |
| FeedbackFlow.FindOption | src/components/ChatDialogCapture.tsx:462 | `find`: the lookup returns the first entry with the asked id, and nothing exactly when no entry has it |
| FeedbackFlow.FindOptionDistinct | src/components/ChatDialogCapture.tsx:462 | with distinct ids, looking up an entry's id returns that entry |
| FeedbackFlow.MapMatching | src/components/ChatDialogCapture.tsx:269-273 | the list-wide update keeps length and order, updates every message whose id matches, and leaves every other message as it was |
| FeedbackFlow.Rate | src/components/ChatDialogCapture.tsx:268-286 | every message sharing the clicked id gets the new rating, whatever it had; nothing else changes |
| FeedbackFlow.ChooseReason | src/components/ChatDialogCapture.tsx:305-314 | every matching message records the reason and is submitted at once unless the reason is "other"; nothing else changes |
| FeedbackFlow.EditCustomFeedback | src/components/ChatDialogCapture.tsx:328-334 | matching messages store the first `min(|s|, 600)` characters typed, never more than 600, and exactly the input when it is short enough |
| FeedbackFlow.SubmitCustomFeedback | src/components/ChatDialogCapture.tsx:347-355 | blank text leaves the list unchanged; otherwise only the submitted flag of the matching messages becomes true |
| FeedbackFlow.CancelCustomFeedback | src/components/ChatDialogCapture.tsx:362-373 | matching messages return to unrated, no reason, no text, not submitted; the dismissed flag is kept |
| FeedbackFlow.DismissResponse | src/components/ChatDialogCapture.tsx:443-455 | the same reset as Cancel, and matching messages become dismissed |
| FeedbackFlow.DismissIdempotent | src/components/ChatDialogCapture.tsx:443-455 | dismissing twice is the same as dismissing once |
| FeedbackFlow.PanelFor | src/components/ChatDialogCapture.tsx:263-466 | each panel is characterised by its own condition: none for user messages or without feedback, rating while unrated, reasons from the rating's catalog while no reason is chosen, the text box for an unsubmitted "other" with its counter and a Submit enabled iff the text is not blank, the acknowledgement once submitted and not dismissed; the repeated text-box branch is never chosen |
| FeedbackFlow.ReasonPrompt | src/components/ChatDialogCapture.tsx:297-299 | the prompt above the reasons is shown with them and only with them, and it is the glad one exactly for a positive rating |
| FeedbackFlow.Dispatch | src/components/ChatDialogCapture.tsx:263-466 | a click keeps the list's length, never changes a message with another id, does nothing on a message without a feedback area, and a Submit on blank text (a disabled button) does nothing |
| FeedbackFlow.Step | src/components/ChatDialogCapture.tsx:263-466 | a feedback step changes no id, content, author, visibility or chips, and a message without a feedback area never changes |
| FeedbackFlow.DispatchIsLocal | src/components/ChatDialogCapture.tsx:263-466 | with unique ids, a click on a message's panel changes that message by one state-machine step and nothing else |
| FeedbackFlow.StepPreservesCoherent | src/components/ChatDialogCapture.tsx:263-466 | no step breaks a message's coherence: a reason only after a rating and from its catalog, a non-"other" reason always submitted, text only with "other", at most 600 characters, and not blank once submitted |
| FeedbackFlow.DispatchPreservesCoherent | src/components/ChatDialogCapture.tsx:263-466 | with unique ids, clicks keep every message coherent and the ids unique |
| FeedbackFlow.AcknowledgementText | src/components/ChatDialogCapture.tsx:462-464 | the acknowledgement has a text iff the reason is one of the rating's reason ids, and then it is the response of the catalog entry with that id |
| FeedbackFlow.AcknowledgementFromCatalog | src/components/ChatDialogCapture.tsx:462-464 | the acknowledgement of a coherent message always has a text: the response of the catalog entry for its rating and reason |
| FeedbackFlow.ReasonResponseShown | src/components/ChatDialogCapture.tsx:462-464 | the acknowledgement after clicking a reason shows that very entry's response |
| FeedbackFlow.ReasonAutoSubmits | src/components/ChatDialogCapture.tsx:305-314 | a reason other than "other" submits at once and moves straight to the acknowledgement of that rating and reason, with no free-text stage |
| FeedbackFlow.ReasonOtherOpensFreeText | src/components/ChatDialogCapture.tsx:305-323 | choosing "other" opens an empty text box whose Submit is disabled |
| FeedbackFlow.BlankSubmitIgnored | src/components/ChatDialogCapture.tsx:348 | submitting blank text changes nothing |
| FeedbackFlow.DismissShowsRatingAgain | src/components/ChatDialogCapture.tsx:443-455 | after a dismissal the message is dismissed and not submitted, and the rating buttons show again |
| FeedbackFlow.DismissedStaysDismissed | src/components/ChatDialogCapture.tsx:439-455 | a dismissed message stays dismissed and never shows an acknowledgement again |
| FeedbackFlow.SharedIdRatesBoth | src/components/ChatDialogCapture.tsx:269-273 | with a repeated id, a thumbs-down on the newer message re-rates an older acknowledged one; its acknowledgement now pairs the negative rating with the positive reason "fast", which has no text in the negative catalog |
| ChatDialogCapture.WelcomeMessage | src/components/ChatDialogCapture.tsx:60-73 | the opening message has id "1", the greeting, no feedback area and an empty chip list |
| ChatDialogCapture.UserMessage | src/components/ChatDialogCapture.tsx:78-82 | a user message carries the text as given and never has a feedback area |
| ChatDialogCapture.BotReply | src/components/ChatDialogCapture.tsx:91-101 | the scripted reply shows feedback with every feedback field initial, starting at the rating buttons |
| ChatDialogCapture.ClearFirstChips | src/components/ChatDialogCapture.tsx:220-222 | only the first message loses its chips; length and other messages are kept |
| ChatDialogCapture.ChatDialog.constructor | src/components/ChatDialogCapture.tsx:56-74 | the dialog opens with the welcome message only, an empty composer, no overlays and no timers |
| ChatDialogCapture.ChatDialog.TypeMessage | src/components/ChatDialogCapture.tsx:494 | the composer holds what was typed; nothing else changes |
| ChatDialogCapture.ChatDialog.SendMessage | src/components/ChatDialogCapture.tsx:76-106 | a blank composer changes nothing; otherwise one user message with the untrimmed text is appended, the composer is cleared, typing shows and one reply is scheduled; a fresh id keeps the list consistent |
| ChatDialogCapture.ChatDialog.PressKey | src/components/ChatDialogCapture.tsx:108-113 | Enter without Shift sends; any other key changes nothing |
| ChatDialogCapture.ChatDialog.DeliverReply | src/components/ChatDialogCapture.tsx:90-104 | a scheduled reply appends one bot reply and turns typing off |
| ChatDialogCapture.ChatDialog.ClickChip | src/components/ChatDialogCapture.tsx:217-235 | the first message loses its chips and one user message with the chip text is appended; the sales form opens iff the text is "Talk to sales" |
| ChatDialogCapture.ChatDialog.HandleFeedback | src/components/ChatDialogCapture.tsx:263-466 | the message list becomes the dispatched update; with unique ids, only the clicked message takes a step; consistency is kept |
| ChatDialogCapture.ChatDialog.OpenSalesDialog | src/components/ChatDialogCapture.tsx:163 | the header button shows the sales form |
| ChatDialogCapture.ChatDialog.CloseSalesDialog | src/components/ChatDialogCapture.tsx:518 | the form's close hides it |
| ChatDialogCapture.ChatDialog.LeadSubmitted | src/components/ChatDialogCapture.tsx:115-118 | a lead shows the thank-you overlay and schedules its close |
| ChatDialogCapture.ChatDialog.OverlayTimerFires | src/components/ChatDialogCapture.tsx:118-122 | the scheduled close hides both the overlay and the sales form |
| ChatDialogCapture.PositiveRoundOnReply | src/components/ChatDialogCapture.tsx:263-466 | on a fresh reply, thumbs up shows the positive reasons; the second reason ("clear") shows its acknowledgement and response text; dismissing brings the rating buttons back |
| SalesDialog.ValidEmailNotBlank | src/components/SalesDialog.tsx:40-42 | an accepted address is never blank, so the "required" test never hides a valid one |
| SalesDialog.NameError | src/components/SalesDialog.tsx:33-38 | the name error is "Name is required" iff every character of the name is white space (the empty name included), and empty otherwise |
| SalesDialog.EmailError | src/components/SalesDialog.tsx:40-48 | the email error is empty iff the raw address is valid, "Email is required" iff every character is white space, and "Please enter a valid email address" otherwise |
| SalesDialog.PhoneError | src/components/SalesDialog.tsx:50-58 | the phone error is empty iff the phone is valid, "Phone number is required" iff every character is white space, and "Please enter a valid UK mobile number" otherwise |
| SalesDialog.FormValid | src/components/SalesDialog.tsx:30-61 | a passing form has no blank field |
| SalesDialog.FormValidIffNoErrors | src/components/SalesDialog.tsx:30-61 | the form passes exactly when all three errors are empty |
| SalesDialog.SpacedEmailIsInvalidNotMissing | src/components/SalesDialog.tsx:40-45 | an address with any white space that is not blank gets the "valid email" error, not "required" |
| SalesDialog.PaddedEmailExample | src/components/SalesDialog.tsx:40-45 | " a@b.com" gets "Please enter a valid email address" |
| SalesDialog.PaddedPhoneExample | src/components/SalesDialog.tsx:27 | " 07123456789" gets no error, because the phone is trimmed before its format check |
| SalesDialog.MalformedEmailExample | src/components/SalesDialog.tsx:30-61 | name "Jo", email "bad", phone "07123456789": only the email error is set and the form fails |
| SalesDialog.BadEmailExample | src/components/SalesDialog.tsx:40-45 | "bad" is not blank and is not a valid address |
| SalesDialog.NationalPhoneExample | src/components/SalesDialog.tsx:24-28 | "07123456789" passes |
| SalesDialog.ValidEmailExample | src/components/SalesDialog.tsx:40-45 | "a@b.com" is a valid address |
| SalesDialog.ValidPhoneExample | src/components/SalesDialog.tsx:24-28 | "+447123456789" passes |
| SalesDialog.ValidLeadExample | src/components/SalesDialog.tsx:30-61 | name "Jo", email "a@b.com", phone "+447123456789" pass |
| SalesDialog.LeadForm.constructor | src/components/SalesDialog.tsx:11-17 | the form opens empty, with no errors, not submitted, with no calls made |
| SalesDialog.LeadForm.SetName | src/components/SalesDialog.tsx:153 | the name field holds what was typed |
| SalesDialog.LeadForm.SetEmail | src/components/SalesDialog.tsx:169 | the email field holds what was typed |
| SalesDialog.LeadForm.SetPhone | src/components/SalesDialog.tsx:63-65 | the phone field holds what was typed |
| SalesDialog.LeadForm.ValidateForm | src/components/SalesDialog.tsx:30-61 | returns true iff all three fields pass; all three errors are always set, each to its field's error, so re-running on unchanged fields gives the same errors |
| SalesDialog.LeadForm.Submit | src/components/SalesDialog.tsx:67-79 | a passing form calls onSubmit once with the untrimmed values, shows the confirmation and schedules its close; a failing one changes only the errors |
| SalesDialog.LeadForm.Accept | src/components/SalesDialog.tsx:70-77 | one onSubmit call with the current values, the confirmation shown, and one close timer scheduled |
| SalesDialog.LeadForm.CloseTimerFires | src/components/SalesDialog.tsx:74-77 | the scheduled close hides the confirmation and calls onClose once |
| SalesDialog.LeadForm.Cancel | src/components/SalesDialog.tsx:197 | Cancel calls onClose once and changes nothing else |
| AuthenticationOverlay.Authenticate | src/components/AuthenticationOverlay.tsx:16-20 | onAuthenticate is called iff the address is valid and the privacy box is ticked, with the address exactly as typed, which then has the accepted shape |
| AuthenticationOverlay.ContinueDisabled | src/components/AuthenticationOverlay.tsx:76 | Continue is disabled exactly when clicking it would call nothing; when it is enabled the address holds no white space |
| AuthenticationOverlay.PrivacyRequired | src/components/AuthenticationOverlay.tsx:17 | with the box unticked no address gets through |
| AuthenticationOverlay.SameAddressesAsLeadForm | src/components/AuthenticationOverlay.tsx:12-14 | with the box ticked, the gate admits exactly the addresses the lead form gives no email error |

## Left out

- Rendering: JSX markup, styling, icons, tooltips, and rendering message content as HTML.
- Time: the 1.5 s reply and the two 4 s closes are completion methods guarded by a pending-timer count. The delays and the order of timers that fire close together are not modelled.
- `Date.now()`: ids are parameters. Timer teardown on unmount is not modelled.
- React state: each handler is one atomic update of the current state. Stale closures and batched updates are not modelled.
- `console.log` in the lead callback of the chat dialog is not modelled. `LeadSubmitted` takes the lead and ignores it.
- Strings are sequences of Unicode code points. JavaScript counts UTF-16 code units in `length` and `slice`. So a text with characters outside the Basic Multilingual Plane can hold up to 600 code points here, where the component allows 600 code units.
- Chips are plain strings. The component's chip entries have a text and an icon, and only the text is used. The welcome message's chip list is empty, so no chip is ever rendered. `ClickChip` models the handler anyway.
- User messages leave the feedback fields undefined in the component. They hold the initial values here. No panel is ever shown for a user message, so the difference cannot be observed.
- The lead form's inputs and buttons are rendered only while the confirmation is hidden. Its methods do not require that.
- The email gate's `onClose` prop is declared but never used. The gate's two inputs are written only by their setters. So they are parameters, not state.
- The chat drawer, the theme files and the build configuration are not part of this model.
