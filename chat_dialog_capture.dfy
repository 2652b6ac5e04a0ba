/**
 * The chat dialog component's own state: the message list, the composer
 * text, the typing indicator and the two overlay flags. Timers become
 * explicit completion methods, and each `Date.now()` id is a parameter.
 */
module ChatDialogCapture {
  import opened Wrappers
  import opened Text
  import opened FeedbackFlow

  const WelcomeText: string :=
    "\U{1F44B} Hi, I'm Arto, your AI assistant here to help. How can I assist you today?"
  const ReplyText: string := "I understand your message. Let me help you with that."
  const TalkToSales: string := "Talk to sales"

  /** The message the dialog opens with: id "1", no feedback area, an empty chip list. */
  function WelcomeMessage(): (m: Message)
    ensures m.id == "1" && m.content == WelcomeText && !m.isUser && m.chips == Some([])
    ensures Coherent(m) && PanelFor(m) == Hidden
  {
    Message("1", WelcomeText, false, false, Unrated, None, "", false, false, Some([]))
  }

  /** A message the user sent; it never renders a feedback area. */
  function UserMessage(id: string, text: string): (m: Message)
    ensures m.id == id && m.content == text && m.isUser && m.chips == None
    ensures Coherent(m) && PanelFor(m) == Hidden
  {
    Message(id, text, true, false, Unrated, None, "", false, false, None)
  }

  /** The canned bot reply: its feedback area starts at the rating buttons. */
  function BotReply(id: string): (m: Message)
    ensures m.id == id && m.content == ReplyText && !m.isUser && m.showFeedback && m.chips == None
    ensures m.feedback == Unrated && m.feedbackOption == None && m.customFeedback == ""
    ensures !m.isCustomFeedbackSubmitted && !m.isFeedbackResponseDismissed
    ensures Coherent(m) && PanelFor(m) == RatingButtons
  {
    Message(id, ReplyText, false, true, Unrated, None, "", false, false, None)
  }

  /** The first message loses its chips; every other message is kept as it is. */
  function ClearFirstChips(msgs: seq<Message>): (r: seq<Message>)
    ensures |r| == |msgs|
    ensures |msgs| > 0 ==> r[0] == msgs[0].(chips := None)
    ensures forall k :: 1 <= k < |msgs| ==> r[k] == msgs[k]
  {
    if msgs == [] then [] else [msgs[0].(chips := None)] + msgs[1..]
  }

  /** No message in `msgs` carries `id`. */
  predicate IdUnused(msgs: seq<Message>, id: string)
  {
    forall k :: 0 <= k < |msgs| ==> msgs[k].id != id
  }

  /** Appending a coherent message with an unused id keeps the list coherent with unique ids. */
  lemma AppendKeepsConsistent(msgs: seq<Message>, m: Message)
    requires AllCoherent(msgs) && UniqueIds(msgs) && Coherent(m) && IdUnused(msgs, m.id)
    ensures AllCoherent(msgs + [m]) && UniqueIds(msgs + [m])
  {
  }

  /** Clearing the chips of the first message changes no feedback field and no id. */
  lemma ClearFirstChipsKeepsConsistent(msgs: seq<Message>)
    requires AllCoherent(msgs) && UniqueIds(msgs)
    ensures AllCoherent(ClearFirstChips(msgs)) && UniqueIds(ClearFirstChips(msgs))
  {
  }

  class ChatDialog {
    var messages: seq<Message>
    var newMessage: string
    var isTyping: bool
    var showSalesDialog: bool
    var isSubmitted: bool
    /** Bot replies scheduled by a send and not yet delivered. */
    var pendingReplies: nat
    /** Overlay auto-close timers scheduled by a lead submission and not yet fired. */
    var pendingOverlayCloses: nat

    /** Every message's feedback fields agree, and ids are unique. */
    predicate Consistent()
      reads this
    {
      AllCoherent(messages) && UniqueIds(messages)
    }

    constructor ()
      ensures messages == [WelcomeMessage()] && newMessage == ""
      ensures !isTyping && !showSalesDialog && !isSubmitted
      ensures pendingReplies == 0 && pendingOverlayCloses == 0
      ensures Consistent()
    {
      messages := [WelcomeMessage()];
      newMessage := "";
      isTyping := false;
      showSalesDialog := false;
      isSubmitted := false;
      pendingReplies := 0;
      pendingOverlayCloses := 0;
    }

    /** The composer's onChange. */
    method TypeMessage(text: string)
      modifies this
      ensures newMessage == text
      ensures messages == old(messages) && isTyping == old(isTyping)
      ensures showSalesDialog == old(showSalesDialog) && isSubmitted == old(isSubmitted)
      ensures pendingReplies == old(pendingReplies) && pendingOverlayCloses == old(pendingOverlayCloses)
    {
      newMessage := text;
    }

    /**
     * Send: nothing happens when the composer holds only whitespace;
     * otherwise the untrimmed text becomes one user message, the composer is
     * cleared, the typing indicator shows and one reply is scheduled.
     */
    method SendMessage(id: string)
      modifies this
      ensures Trim(old(newMessage)) == [] ==>
        messages == old(messages) && newMessage == old(newMessage) && isTyping == old(isTyping)
        && pendingReplies == old(pendingReplies)
      ensures Trim(old(newMessage)) != [] ==>
        messages == old(messages) + [UserMessage(id, old(newMessage))] && newMessage == "" && isTyping
        && pendingReplies == old(pendingReplies) + 1
      ensures showSalesDialog == old(showSalesDialog) && isSubmitted == old(isSubmitted)
      ensures pendingOverlayCloses == old(pendingOverlayCloses)
      ensures old(Consistent()) && IdUnused(old(messages), id) ==> Consistent()
    {
      if Trim(newMessage) != [] {
        if Consistent() && IdUnused(messages, id) {
          AppendKeepsConsistent(messages, UserMessage(id, newMessage));
        }
        messages := messages + [UserMessage(id, newMessage)];
        newMessage := "";
        isTyping := true;
        pendingReplies := pendingReplies + 1;
      }
    }

    /** Enter without Shift sends; every other key leaves the dialog as it is. */
    method PressKey(key: string, shift: bool, id: string)
      modifies this
      ensures !(key == "Enter" && !shift) ==>
        messages == old(messages) && newMessage == old(newMessage) && isTyping == old(isTyping)
        && pendingReplies == old(pendingReplies)
      ensures key == "Enter" && !shift && Trim(old(newMessage)) == [] ==>
        messages == old(messages) && newMessage == old(newMessage) && isTyping == old(isTyping)
        && pendingReplies == old(pendingReplies)
      ensures key == "Enter" && !shift && Trim(old(newMessage)) != [] ==>
        messages == old(messages) + [UserMessage(id, old(newMessage))] && newMessage == "" && isTyping
        && pendingReplies == old(pendingReplies) + 1
      ensures showSalesDialog == old(showSalesDialog) && isSubmitted == old(isSubmitted)
      ensures pendingOverlayCloses == old(pendingOverlayCloses)
      ensures old(Consistent()) && IdUnused(old(messages), id) ==> Consistent()
    {
      if key == "Enter" && !shift {
        SendMessage(id);
      }
    }

    /** A scheduled reply arrives: one bot message is appended and the typing indicator goes off. */
    method DeliverReply(id: string)
      requires pendingReplies > 0
      modifies this
      ensures messages == old(messages) + [BotReply(id)] && !isTyping
      ensures pendingReplies == old(pendingReplies) - 1 && newMessage == old(newMessage)
      ensures showSalesDialog == old(showSalesDialog) && isSubmitted == old(isSubmitted)
      ensures pendingOverlayCloses == old(pendingOverlayCloses)
      ensures old(Consistent()) && IdUnused(old(messages), id) ==> Consistent()
    {
      if Consistent() && IdUnused(messages, id) {
        AppendKeepsConsistent(messages, BotReply(id));
      }
      messages := messages + [BotReply(id)];
      isTyping := false;
      pendingReplies := pendingReplies - 1;
    }

    /**
     * A quick-reply chip under message `k`: the first message loses its
     * chips, the chip's text is sent as a user message, and "Talk to sales"
     * also opens the lead form.
     */
    method ClickChip(k: nat, text: string, id: string)
      requires k < |messages| && messages[k].chips.Some? && text in messages[k].chips.value
      modifies this
      ensures messages == ClearFirstChips(old(messages)) + [UserMessage(id, text)]
      ensures showSalesDialog <==> old(showSalesDialog) || text == TalkToSales
      ensures newMessage == old(newMessage) && isTyping == old(isTyping) && isSubmitted == old(isSubmitted)
      ensures pendingReplies == old(pendingReplies) && pendingOverlayCloses == old(pendingOverlayCloses)
      ensures old(Consistent()) && IdUnused(old(messages), id) ==> Consistent()
    {
      if Consistent() && IdUnused(messages, id) {
        ClearFirstChipsKeepsConsistent(messages);
        AppendKeepsConsistent(ClearFirstChips(messages), UserMessage(id, text));
      }
      messages := ClearFirstChips(messages);
      messages := messages + [UserMessage(id, text)];
      if text == TalkToSales {
        showSalesDialog := true;
      }
    }

    /**
     * A click or keystroke in the feedback panel under message `i`; with
     * unique ids it is that message's state-machine step and nothing else.
     */
    method HandleFeedback(i: nat, ev: FeedbackEvent)
      requires i < |messages|
      modifies this
      ensures messages == Dispatch(old(messages), i, ev)
      ensures old(UniqueIds(messages)) ==> messages == old(messages)[i := Step(old(messages)[i], ev)]
      ensures old(Consistent()) ==> Consistent()
      ensures newMessage == old(newMessage) && isTyping == old(isTyping)
      ensures showSalesDialog == old(showSalesDialog) && isSubmitted == old(isSubmitted)
      ensures pendingReplies == old(pendingReplies) && pendingOverlayCloses == old(pendingOverlayCloses)
    {
      if UniqueIds(messages) {
        DispatchIsLocal(messages, i, ev);
        if AllCoherent(messages) {
          DispatchPreservesCoherent(messages, i, ev);
        }
      }
      messages := Dispatch(messages, i, ev);
    }

    /** The header's "Talk to us" button. */
    method OpenSalesDialog()
      modifies this`showSalesDialog
      ensures showSalesDialog
    {
      showSalesDialog := true;
    }

    /** The lead form's onClose. */
    method CloseSalesDialog()
      modifies this`showSalesDialog
      ensures !showSalesDialog
    {
      showSalesDialog := false;
    }

    /** The lead form's onSubmit: the thank-you overlay shows and its auto-close is scheduled. */
    method LeadSubmitted(name: string, email: string, phone: string)
      modifies this`isSubmitted, this`pendingOverlayCloses
      ensures isSubmitted && pendingOverlayCloses == old(pendingOverlayCloses) + 1
    {
      isSubmitted := true;
      pendingOverlayCloses := pendingOverlayCloses + 1;
    }

    /** The auto-close fires: the overlay and the lead form both go away. */
    method OverlayTimerFires()
      requires pendingOverlayCloses > 0
      modifies this`isSubmitted, this`showSalesDialog, this`pendingOverlayCloses
      ensures !isSubmitted && !showSalesDialog && pendingOverlayCloses == old(pendingOverlayCloses) - 1
    {
      isSubmitted := false;
      showSalesDialog := false;
      pendingOverlayCloses := pendingOverlayCloses - 1;
    }
  }

  /**
   * A whole feedback round on a fresh reply: thumbs up, then the second
   * positive reason, shows that reason's response; closing it brings the
   * rating buttons back.
   */
  lemma PositiveRoundOnReply(id: string)
    ensures var m1 := Step(BotReply(id), ClickThumbsUp);
      var m2 := Step(m1, ClickReason(1));
      && PanelFor(m1) == ReasonList(Positive)
      && PanelFor(m2) == Acknowledgement(Positive, "clear")
      && AcknowledgementText(Positive, "clear") == Some("Glad to hear our answers were clear and helpful!")
      && PanelFor(Step(m2, ClickDismissResponse)) == RatingButtons
  {
    var m1 := Step(BotReply(id), ClickThumbsUp);
    assert m1 == BotReply(id).(feedback := Positive);
    ReasonAutoSubmits(m1, 1);
    var m2 := Step(m1, ClickReason(1));
    DismissShowsRatingAgain(m2);
    ReasonResponseShown(Positive, 1);
  }
}
