/**
 * The per-message feedback flow of the chat dialog: the message record, the
 * two reason catalogs, the six click handlers (each rewrites the whole list,
 * updating every message whose id matches the clicked one), and the cascade
 * of conditions that decides which feedback panel a message renders.
 */
module FeedbackFlow {
  import opened Wrappers
  import opened Text

  /** `FeedbackType`: null, 'positive' or 'negative'. */
  datatype Rating = Unrated | Positive | Negative

  /** One entry of a reason catalog: its id, the button caption (`label`), the canned acknowledgement. */
  datatype FeedbackOption = FeedbackOption(id: string, caption: string, response: string)

  /**
   * A chat message. Fields a user message leaves `undefined` in the component
   * hold their initial values here (Unrated, None, "", false): no panel is
   * rendered for a user message, so the difference is never observed.
   */
  datatype Message = Message(
    id: string,
    content: string,
    isUser: bool,
    showFeedback: bool,
    feedback: Rating,
    feedbackOption: Option<string>,
    customFeedback: string,
    isCustomFeedbackSubmitted: bool,
    isFeedbackResponseDismissed: bool,
    chips: Option<seq<string>>)

  /** The free-text box keeps at most this many characters (`slice(0, 600)`, `maxLength={600}`). */
  const MaxCustomFeedback: nat := 600

  /** The reason id that opens the free-text box instead of submitting at once. */
  const OtherId: string := "other"

  const PositiveOptions: seq<FeedbackOption> := [
    FeedbackOption("fast", "Fast (Efficient)",
      "Thanks for your feedback! We strive for quick, accurate responses."),
    FeedbackOption("clear", "Provided clear and helpful answers",
      "Glad to hear our answers were clear and helpful!"),
    FeedbackOption("knowledgeable", "Knowledgeable assistant",
      "We appreciate your recognition! We aim for expertise in every response."),
    FeedbackOption("engaging", "Engaging and friendly tone",
      "Happy you found our conversation engaging!"),
    FeedbackOption("easy", "Easy to use",
      "Thanks! We aim for a smooth, user-friendly experience."),
    FeedbackOption("understood", "Understood my needs well",
      "Glad we could understand and address your needs!"),
    FeedbackOption("other", "Other",
      "Thanks for your positive feedback!")
  ]

  const NegativeOptions: seq<FeedbackOption> := [
    FeedbackOption("slow", "Slow (Inefficient)",
      "Sorry for the delay. We're working on improving speed."),
    FeedbackOption("unhelpful", "Answers were not helpful",
      "Sorry our answers weren\U{2019}t helpful. We\U{2019}re working to improve."),
    FeedbackOption("incorrect", "Provided incorrect information",
      "Apologies for the mistake. We\U{2019}ll review and improve accuracy."),
    FeedbackOption("difficult", "Difficult to interact with",
      "Sorry for any difficulty. We\U{2019}re making interactions smoother."),
    FeedbackOption("misunderstood", "Didn't understand my question",
      "Apologies for the misunderstanding. We\U{2019}re working on better comprehension."),
    FeedbackOption("error", "Encountered error message",
      "Sorry for the error. We\U{2019}ll investigate and fix it."),
    FeedbackOption("other", "Other",
      "Thanks for your feedback!")
  ]

  /**
   * The positive list for a positive rating and the negative list otherwise
   * (an unrated message included): seven entries carrying the rating's
   * reason ids in button order.
   */
  function Catalog(r: Rating): (c: seq<FeedbackOption>)
    ensures |c| == |ReasonIds(r)| == 7
    ensures forall k :: 0 <= k < 7 ==> c[k].id == ReasonIds(r)[k]
  {
    if r == Positive then PositiveOptions else NegativeOptions
  }

  /** No two entries of `cat` share an id. */
  predicate DistinctIds(cat: seq<FeedbackOption>)
  {
    forall a, b :: 0 <= a < b < |cat| ==> cat[a].id != cat[b].id
  }

  const PositiveIds: seq<string> := ["fast", "clear", "knowledgeable", "engaging", "easy", "understood", "other"]
  const NegativeIds: seq<string> := ["slow", "unhelpful", "incorrect", "difficult", "misunderstood", "error", "other"]

  /** The ids of a rating's catalog, in button order. */
  function ReasonIds(r: Rating): seq<string>
  {
    if r == Positive then PositiveIds else NegativeIds
  }

  /** Each list of ids has seven distinct entries; the last is "other" and no other one is. */
  lemma ReasonIdsShape(r: Rating)
    ensures |ReasonIds(r)| == 7
    ensures forall a, b :: 0 <= a < b < 7 ==> ReasonIds(r)[a] != ReasonIds(r)[b]
    ensures ReasonIds(r)[6] == OtherId && forall k :: 0 <= k < 6 ==> ReasonIds(r)[k] != OtherId
  {
  }

  /** No two entries of a catalog share an id. */
  lemma CatalogShape(r: Rating)
    ensures DistinctIds(Catalog(r))
  {
    ReasonIdsShape(r);
  }

  /** The first entry of `cat` with that id, if any (an array `find`). */
  function FindOption(cat: seq<FeedbackOption>, id: string): (r: Option<FeedbackOption>)
    ensures r.Some? ==> r.value.id == id
    ensures r.Some? ==> exists k :: 0 <= k < |cat| && r.value == cat[k] && forall j :: 0 <= j < k ==> cat[j].id != id
    ensures r.None? <==> forall k :: 0 <= k < |cat| ==> cat[k].id != id
  {
    if cat == [] then None
    else if cat[0].id == id then Some(cat[0])
    else FindOption(cat[1..], id)
  }

  /** With distinct ids, looking an entry's id up finds that very entry. */
  lemma {:induction false} FindOptionDistinct(cat: seq<FeedbackOption>, k: nat)
    requires DistinctIds(cat) && k < |cat|
    ensures FindOption(cat, cat[k].id) == Some(cat[k])
  {
    if k > 0 {
      assert cat[0].id != cat[k].id;
      assert cat[1..][k - 1] == cat[k];
      FindOptionDistinct(cat[1..], k - 1);
    }
  }

  // ---------------------------------------------------------------------------
  // The click handlers, each over the whole message list
  // ---------------------------------------------------------------------------

  /** The object spread each handler applies to a matching message. */
  datatype Update =
    | SetRating(rating: Rating)
    | ChooseOption(option: string)
    | SetCustomText(text: string)
    | MarkSubmitted
    | Reset
    | ResetAndDismiss

  function Apply(m: Message, u: Update): Message
  {
    match u
    case SetRating(v) => m.(feedback := v)
    case ChooseOption(o) => m.(feedbackOption := Some(o), isCustomFeedbackSubmitted := o != OtherId)
    case SetCustomText(t) => m.(customFeedback := t)
    case MarkSubmitted => m.(isCustomFeedbackSubmitted := true)
    case Reset =>
      m.(feedback := Unrated, feedbackOption := None, customFeedback := "", isCustomFeedbackSubmitted := false)
    case ResetAndDismiss =>
      m.(feedback := Unrated, feedbackOption := None, customFeedback := "", isCustomFeedbackSubmitted := false,
         isFeedbackResponseDismissed := true)
  }

  /** Applies `u` to every message whose id is `id`, in place in the list, and keeps the rest. */
  function MapMatching(msgs: seq<Message>, id: string, u: Update): (r: seq<Message>)
    ensures |r| == |msgs|
    ensures forall k :: 0 <= k < |msgs| && msgs[k].id == id ==> r[k] == Apply(msgs[k], u)
    ensures forall k :: 0 <= k < |msgs| && msgs[k].id != id ==> r[k] == msgs[k]
  {
    if msgs == [] then []
    else [if msgs[0].id == id then Apply(msgs[0], u) else msgs[0]] + MapMatching(msgs[1..], id, u)
  }

  /** Thumbs up / thumbs down on message `i`: every message with its id gets the rating, whatever it had. */
  function Rate(msgs: seq<Message>, i: nat, v: Rating): (r: seq<Message>)
    requires i < |msgs| && v != Unrated
    ensures |r| == |msgs| && r[i].feedback == v
    ensures forall k :: 0 <= k < |msgs| ==>
      r[k] == if msgs[k].id == msgs[i].id then msgs[k].(feedback := v) else msgs[k]
  {
    MapMatching(msgs, msgs[i].id, SetRating(v))
  }

  /** A reason button: records the reason and, unless it is "other", marks the feedback submitted at once. */
  function ChooseReason(msgs: seq<Message>, i: nat, option: string): (r: seq<Message>)
    requires i < |msgs|
    ensures |r| == |msgs|
    ensures r[i].feedbackOption == Some(option) && (r[i].isCustomFeedbackSubmitted <==> option != OtherId)
    ensures forall k :: 0 <= k < |msgs| ==>
      r[k] == if msgs[k].id == msgs[i].id
              then msgs[k].(feedbackOption := Some(option), isCustomFeedbackSubmitted := option != OtherId)
              else msgs[k]
  {
    MapMatching(msgs, msgs[i].id, ChooseOption(option))
  }

  /** The textarea's onChange: stores the first 600 characters of what was typed. */
  function EditCustomFeedback(msgs: seq<Message>, i: nat, value: string): (r: seq<Message>)
    requires i < |msgs|
    ensures |r| == |msgs|
    ensures |r[i].customFeedback| <= MaxCustomFeedback && |r[i].customFeedback| <= |value|
    ensures r[i].customFeedback == value[..|r[i].customFeedback|]
    ensures |value| <= MaxCustomFeedback ==> r[i].customFeedback == value
    ensures forall k :: 0 <= k < |msgs| ==>
      r[k] == if msgs[k].id == msgs[i].id then msgs[k].(customFeedback := Prefix(value, MaxCustomFeedback)) else msgs[k]
  {
    MapMatching(msgs, msgs[i].id, SetCustomText(Prefix(value, MaxCustomFeedback)))
  }

  /** "Submit Feedback": does nothing when the clicked message's text trims to empty, else marks it submitted. */
  function SubmitCustomFeedback(msgs: seq<Message>, i: nat): (r: seq<Message>)
    requires i < |msgs|
    ensures Trim(msgs[i].customFeedback) == [] ==> r == msgs
    ensures Trim(msgs[i].customFeedback) != [] ==> |r| == |msgs| && r[i].isCustomFeedbackSubmitted
    ensures Trim(msgs[i].customFeedback) != [] ==> forall k :: 0 <= k < |msgs| ==>
      r[k] == if msgs[k].id == msgs[i].id then msgs[k].(isCustomFeedbackSubmitted := true) else msgs[k]
  {
    if Trim(msgs[i].customFeedback) != [] then MapMatching(msgs, msgs[i].id, MarkSubmitted) else msgs
  }

  /** "Cancel": back to unrated, with no reason, no text, not submitted; the dismissed flag is kept. */
  function CancelCustomFeedback(msgs: seq<Message>, i: nat): (r: seq<Message>)
    requires i < |msgs|
    ensures |r| == |msgs|
    ensures r[i].feedback == Unrated && r[i].feedbackOption == None && r[i].customFeedback == ""
    ensures !r[i].isCustomFeedbackSubmitted && r[i].isFeedbackResponseDismissed == msgs[i].isFeedbackResponseDismissed
    ensures forall k :: 0 <= k < |msgs| ==>
      r[k] == if msgs[k].id == msgs[i].id
              then msgs[k].(feedback := Unrated, feedbackOption := None, customFeedback := "",
                            isCustomFeedbackSubmitted := false)
              else msgs[k]
  {
    MapMatching(msgs, msgs[i].id, Reset)
  }

  /** The acknowledgement's close button: the same reset as Cancel, and the message is marked dismissed. */
  function DismissResponse(msgs: seq<Message>, i: nat): (r: seq<Message>)
    requires i < |msgs|
    ensures |r| == |msgs|
    ensures r[i].feedback == Unrated && r[i].feedbackOption == None && r[i].customFeedback == ""
    ensures !r[i].isCustomFeedbackSubmitted && r[i].isFeedbackResponseDismissed
    ensures forall k :: 0 <= k < |msgs| ==>
      r[k] == if msgs[k].id == msgs[i].id
              then msgs[k].(feedback := Unrated, feedbackOption := None, customFeedback := "",
                            isCustomFeedbackSubmitted := false, isFeedbackResponseDismissed := true)
              else msgs[k]
  {
    MapMatching(msgs, msgs[i].id, ResetAndDismiss)
  }

  /** Dismissing twice is dismissing once. */
  lemma DismissIdempotent(msgs: seq<Message>, i: nat)
    requires i < |msgs|
    ensures DismissResponse(DismissResponse(msgs, i), i) == DismissResponse(msgs, i)
  {
    var once := DismissResponse(msgs, i);
    var twice := DismissResponse(once, i);
    assert once[i].id == msgs[i].id;
    forall k | 0 <= k < |msgs| ensures twice[k] == once[k] {
      assert once[k].id == msgs[k].id;
    }
  }

  // ---------------------------------------------------------------------------
  // Which feedback panel a message renders
  // ---------------------------------------------------------------------------

  /** The alternatives of the conditional rendering below each message. */
  datatype Panel =
    | Hidden                                                       // no feedback area at all
    | RatingButtons                                                // thumbs up / thumbs down
    | ReasonList(rating: Rating)                                   // prompt and reason buttons for a rating
    | FreeTextBox(text: string, count: int, canSubmit: bool)       // textarea, counter, Submit and Cancel
    | FreeTextBoxRepeat(text: string, count: int, canSubmit: bool) // the second, identical condition
    | Acknowledgement(rating: Rating, option: string)              // canned response and close button
    | Blank                                                        // the final `: null`

  /** Whether the feedback area is rendered at all. */
  predicate FeedbackShown(m: Message)
  {
    m.showFeedback && !m.isUser
  }

  /** The response an acknowledgement shows: the text of the rating's catalog entry with that id, if any. */
  function AcknowledgementText(r: Rating, option: string): (t: Option<string>)
    ensures t.Some? <==> option in ReasonIds(r)
    ensures t.Some? ==> exists k :: 0 <= k < 7 && Catalog(r)[k].id == option && t.value == Catalog(r)[k].response
  {
    CatalogShape(r);
    match FindOption(Catalog(r), option)
    case Some(o) => Some(o.response)
    case None => None
  }

  /**
   * The panel cascade. Each alternative is characterised below by a condition
   * that does not depend on the order of the tests; the repeated free-text
   * condition is never reached.
   */
  function PanelFor(m: Message): (p: Panel)
    ensures p == Hidden <==> !FeedbackShown(m)
    ensures p == RatingButtons <==> FeedbackShown(m) && m.feedback == Unrated
    ensures p.ReasonList? <==> FeedbackShown(m) && m.feedback != Unrated && m.feedbackOption.None?
    ensures p.FreeTextBox? <==>
      FeedbackShown(m) && m.feedback != Unrated && m.feedbackOption == Some(OtherId) && !m.isCustomFeedbackSubmitted
    ensures !p.FreeTextBoxRepeat?
    ensures p.Acknowledgement? <==>
      FeedbackShown(m) && m.feedback != Unrated && m.feedbackOption.Some?
      && m.isCustomFeedbackSubmitted && !m.isFeedbackResponseDismissed
    ensures p.ReasonList? ==> p.rating == m.feedback
    ensures p.Acknowledgement? ==> p.rating == m.feedback && m.feedbackOption == Some(p.option)
    ensures p.FreeTextBox? ==>
      p.text == m.customFeedback && p.count == |m.customFeedback| && (p.canSubmit <==> Trim(m.customFeedback) != [])
  {
    if !FeedbackShown(m) then Hidden
    else if m.feedback == Unrated then RatingButtons
    else if m.feedbackOption == None then ReasonList(m.feedback)
    else if m.feedbackOption == Some(OtherId) && !m.isCustomFeedbackSubmitted then
      FreeTextBox(m.customFeedback, |m.customFeedback|, Trim(m.customFeedback) != [])
    else if m.feedbackOption == Some(OtherId) && !m.isCustomFeedbackSubmitted then
      FreeTextBoxRepeat(m.customFeedback, |m.customFeedback|, Trim(m.customFeedback) != [])
    else if m.isCustomFeedbackSubmitted && !m.isFeedbackResponseDismissed then
      Acknowledgement(m.feedback, m.feedbackOption.value)
    else Blank
  }

  const GladPrompt: string := "Great! I'm glad the information was helpful. To help us improve, please provide feedback."
  const SorryPrompt: string := "Sorry that the information wasn't helpful. To help us improve, please provide feedback."

  /** The text above the reason buttons: shown with them and only with them, glad exactly for a positive rating. */
  function ReasonPrompt(m: Message): (t: Option<string>)
    ensures t.Some? <==> PanelFor(m).ReasonList?
    ensures t.Some? ==> (t.value == GladPrompt <==> m.feedback == Positive)
  {
    match PanelFor(m)
    case ReasonList(r) => Some(if r == Positive then GladPrompt else SorryPrompt)
    case _ => None
  }

  // ---------------------------------------------------------------------------
  // Events: a handler runs only when its control is on screen
  // ---------------------------------------------------------------------------

  datatype FeedbackEvent =
    | ClickThumbsUp
    | ClickThumbsDown
    | ClickReason(index: nat)
    | TypeFeedback(value: string)
    | ClickSubmitFeedback
    | ClickCancelFeedback
    | ClickDismissResponse

  predicate IsFreeText(p: Panel)
  {
    p.FreeTextBox? || p.FreeTextBoxRepeat?
  }

  /**
   * An event on the controls rendered under message `i`. A control that is
   * not rendered cannot be clicked, and a disabled Submit button fires no
   * click; otherwise the control's handler runs on the whole list.
   */
  function Dispatch(msgs: seq<Message>, i: nat, ev: FeedbackEvent): (r: seq<Message>)
    requires i < |msgs|
    ensures |r| == |msgs|
    ensures forall k :: 0 <= k < |msgs| && msgs[k].id != msgs[i].id ==> r[k] == msgs[k]
    ensures PanelFor(msgs[i]) == Hidden ==> r == msgs
    ensures ev == ClickSubmitFeedback && Trim(msgs[i].customFeedback) == [] ==> r == msgs
  {
    var p := PanelFor(msgs[i]);
    match ev
    case ClickThumbsUp => if p == RatingButtons then Rate(msgs, i, Positive) else msgs
    case ClickThumbsDown => if p == RatingButtons then Rate(msgs, i, Negative) else msgs
    case ClickReason(k) =>
      if p.ReasonList? && k < |Catalog(p.rating)| then ChooseReason(msgs, i, Catalog(p.rating)[k].id) else msgs
    case TypeFeedback(v) => if IsFreeText(p) then EditCustomFeedback(msgs, i, v) else msgs
    case ClickSubmitFeedback => if IsFreeText(p) && p.canSubmit then SubmitCustomFeedback(msgs, i) else msgs
    case ClickCancelFeedback => if IsFreeText(p) then CancelCustomFeedback(msgs, i) else msgs
    case ClickDismissResponse => if p.Acknowledgement? then DismissResponse(msgs, i) else msgs
  }

  /**
   * The feedback state machine of a single message, stated on its own:
   * Unrated -> Rated -> reason chosen -> (free text) -> submitted -> dismissed,
   * with Cancel from the free-text stage back to Unrated.
   */
  function Step(m: Message, ev: FeedbackEvent): (r: Message)
    ensures r.id == m.id && r.content == m.content && r.isUser == m.isUser
    ensures r.showFeedback == m.showFeedback && r.chips == m.chips
    ensures PanelFor(m) == Hidden ==> r == m
    ensures r.isFeedbackResponseDismissed <==>
      m.isFeedbackResponseDismissed || (ev == ClickDismissResponse && PanelFor(m).Acknowledgement?)
  {
    var p := PanelFor(m);
    match ev
    case ClickThumbsUp => if p == RatingButtons then m.(feedback := Positive) else m
    case ClickThumbsDown => if p == RatingButtons then m.(feedback := Negative) else m
    case ClickReason(k) =>
      if p.ReasonList? && k < |ReasonIds(p.rating)|
      then m.(feedbackOption := Some(ReasonIds(p.rating)[k]), isCustomFeedbackSubmitted := ReasonIds(p.rating)[k] != OtherId)
      else m
    case TypeFeedback(v) =>
      if p.FreeTextBox? then m.(customFeedback := Prefix(v, MaxCustomFeedback)) else m
    case ClickSubmitFeedback =>
      if p.FreeTextBox? && Trim(m.customFeedback) != [] then m.(isCustomFeedbackSubmitted := true) else m
    case ClickCancelFeedback =>
      if p.FreeTextBox?
      then m.(feedback := Unrated, feedbackOption := None, customFeedback := "", isCustomFeedbackSubmitted := false)
      else m
    case ClickDismissResponse =>
      if p.Acknowledgement?
      then m.(feedback := Unrated, feedbackOption := None, customFeedback := "", isCustomFeedbackSubmitted := false,
              isFeedbackResponseDismissed := true)
      else m
  }

  /** No two messages share an id. */
  predicate UniqueIds(msgs: seq<Message>)
  {
    forall a, b :: 0 <= a < b < |msgs| ==> msgs[a].id != msgs[b].id
  }

  /** With unique ids, an event on message `i` is that message's own state-machine step, and nothing else changes. */
  lemma DispatchIsLocal(msgs: seq<Message>, i: nat, ev: FeedbackEvent)
    requires i < |msgs| && UniqueIds(msgs)
    ensures Dispatch(msgs, i, ev) == msgs[i := Step(msgs[i], ev)]
  {
    var r := Dispatch(msgs, i, ev);
    if ev.ClickReason? {
      CatalogShape(msgs[i].feedback);
    }
    forall k | 0 <= k < |msgs| ensures r[k] == msgs[i := Step(msgs[i], ev)][k] {
      if k != i {
        assert msgs[k].id != msgs[i].id;
      }
    }
  }

  // ---------------------------------------------------------------------------
  // The invariant every message keeps
  // ---------------------------------------------------------------------------

  /**
   * The feedback fields of a message agree with one another: a reason only
   * after a rating, and one from that rating's catalog; a reason other than
   * "other" is submitted at once; text only with "other", at most 600
   * characters, and non-blank once submitted.
   */
  predicate Coherent(m: Message)
  {
    && |m.customFeedback| <= MaxCustomFeedback
    && (m.feedback == Unrated ==> m.feedbackOption.None?)
    && (m.feedbackOption.None? ==> !m.isCustomFeedbackSubmitted && m.customFeedback == "")
    && (m.feedbackOption.Some? ==> m.feedbackOption.value in ReasonIds(m.feedback))
    && (m.feedbackOption.Some? && m.feedbackOption.value != OtherId ==>
          m.isCustomFeedbackSubmitted && m.customFeedback == "")
    && (m.feedbackOption == Some(OtherId) && m.isCustomFeedbackSubmitted ==> Trim(m.customFeedback) != [])
  }

  /** Every step of the state machine keeps a message coherent. */
  lemma StepPreservesCoherent(m: Message, ev: FeedbackEvent)
    requires Coherent(m)
    ensures Coherent(Step(m, ev))
  {
  }

  predicate AllCoherent(msgs: seq<Message>)
  {
    forall k :: 0 <= k < |msgs| ==> Coherent(msgs[k])
  }

  /** With unique ids, no click on any panel breaks the invariant of any message. */
  lemma DispatchPreservesCoherent(msgs: seq<Message>, i: nat, ev: FeedbackEvent)
    requires i < |msgs| && UniqueIds(msgs) && AllCoherent(msgs)
    ensures AllCoherent(Dispatch(msgs, i, ev)) && UniqueIds(Dispatch(msgs, i, ev))
  {
    DispatchIsLocal(msgs, i, ev);
    StepPreservesCoherent(msgs[i], ev);
  }

  // ---------------------------------------------------------------------------
  // What the flow shows
  // ---------------------------------------------------------------------------

  /** The acknowledgement of a coherent message shows the catalog response of its rating and reason. */
  lemma AcknowledgementFromCatalog(m: Message)
    requires Coherent(m) && PanelFor(m).Acknowledgement?
    ensures exists k :: (0 <= k < |Catalog(m.feedback)| && Catalog(m.feedback)[k].id == m.feedbackOption.value
      && AcknowledgementText(PanelFor(m).rating, PanelFor(m).option) == Some(Catalog(m.feedback)[k].response))
  {
    var p := PanelFor(m);
    var t := AcknowledgementText(p.rating, p.option);
    assert t.Some?;
    CatalogShape(m.feedback);
    var k :| 0 <= k < 7 && Catalog(m.feedback)[k].id == p.option && t.value == Catalog(m.feedback)[k].response;
  }

  /** A reason other than "other" goes straight to its acknowledgement, with no free-text stage. */
  lemma ReasonAutoSubmits(m: Message, k: nat)
    requires PanelFor(m).ReasonList? && k < |ReasonIds(m.feedback)|
    requires ReasonIds(m.feedback)[k] != OtherId && !m.isFeedbackResponseDismissed
    ensures Step(m, ClickReason(k)).isCustomFeedbackSubmitted
    ensures PanelFor(Step(m, ClickReason(k))) == Acknowledgement(m.feedback, ReasonIds(m.feedback)[k])
  {
  }

  /** That acknowledgement shows the response of the very entry whose button was clicked. */
  lemma ReasonResponseShown(r: Rating, k: nat)
    requires k < |Catalog(r)|
    ensures AcknowledgementText(r, Catalog(r)[k].id) == Some(Catalog(r)[k].response)
  {
    CatalogShape(r);
    FindOptionDistinct(Catalog(r), k);
  }

  /** The "other" reason opens the free-text box, empty and not submittable, on a coherent message. */
  lemma ReasonOtherOpensFreeText(m: Message)
    requires Coherent(m) && PanelFor(m).ReasonList?
    ensures PanelFor(Step(m, ClickReason(6))) == FreeTextBox("", 0, false)
  {
    ReasonIdsShape(m.feedback);
  }

  /** Submitting blank text is refused: the message does not change. */
  lemma BlankSubmitIgnored(m: Message)
    requires Trim(m.customFeedback) == []
    ensures Step(m, ClickSubmitFeedback) == m
  {
    var p := PanelFor(m);
    assert !(p.FreeTextBox? && Trim(m.customFeedback) != []);
  }

  /**
   * Closing the acknowledgement does not leave the message "submitted and
   * dismissed": it is dismissed but no longer submitted, and the rating
   * buttons come back.
   */
  lemma DismissShowsRatingAgain(m: Message)
    requires PanelFor(m).Acknowledgement?
    ensures var d := Step(m, ClickDismissResponse);
      d.isFeedbackResponseDismissed && !d.isCustomFeedbackSubmitted && PanelFor(d) == RatingButtons
  {
    var d := Step(m, ClickDismissResponse);
    assert d == m.(feedback := Unrated, feedbackOption := None, customFeedback := "",
                   isCustomFeedbackSubmitted := false, isFeedbackResponseDismissed := true);
  }

  /** Once dismissed, always dismissed: a later round of feedback never shows an acknowledgement. */
  lemma DismissedStaysDismissed(m: Message, ev: FeedbackEvent)
    requires m.isFeedbackResponseDismissed
    ensures Step(m, ev).isFeedbackResponseDismissed
    ensures !PanelFor(Step(m, ev)).Acknowledgement?
  {
    var s := Step(m, ev);
    assert s.isFeedbackResponseDismissed;
  }

  /**
   * Ids need not be unique, and a click reaches every message with the
   * clicked one's id: rating a newer message with a repeated id re-rates an
   * acknowledged older one, whose reason then has no entry in the other
   * catalog, so its acknowledgement shows no text.
   */
  lemma SharedIdRatesBoth(old0: Message, new1: Message)
    requires old0 == Message("7", "a", false, true, Positive, Some("fast"), "", true, false, None)
    requires new1 == Message("7", "b", false, true, Unrated, None, "", false, false, None)
    ensures var r := Dispatch([old0, new1], 1, ClickThumbsDown);
      r[0].feedback == Negative && PanelFor(r[0]) == Acknowledgement(Negative, "fast")
      && AcknowledgementText(Negative, "fast") == None
  {
    var msgs := [old0, new1];
    assert PanelFor(msgs[1]) == RatingButtons;
    var r := Dispatch(msgs, 1, ClickThumbsDown);
    assert r == Rate(msgs, 1, Negative);
    assert r[0] == old0.(feedback := Negative);
    assert forall k :: 0 <= k < 7 ==> NegativeIds[k] != "fast";
  }
}
