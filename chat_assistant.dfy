/** components/AIChatAssistant.tsx: the conversation, the input box and the loading flag,
    and handleSend's guard and two appends. The call is split at its `await`: BeginSend runs
    the statements before it and CompleteSend the ones after it. Message timestamps are clock
    readings passed in by the caller. */
module ChatAssistant {
  import opened Seqs
  import opened Types
  import opened Text
  import opened Gateway

  const Greeting: string := "Hi! I am ameerapp AI. Ready to scale your operations?"
  const EmptyReplyText: string := "Sorry, I encountered an error."
  const ConnectionLostText: string := "Connection lost. Please try again."

  /** The assistant's reply for the call's outcome: the response text, the apology when
      it is empty, the connection notice when the call rejects. */
  function Reply(outcome: Outcome): (r: string)
    ensures r != ""
    ensures outcome.Success? && outcome.text != "" ==> r == outcome.text
    ensures outcome.Empty? || outcome == Success("") ==> r == EmptyReplyText
    ensures outcome.Failure? ==> r == ConnectionLostText
  {
    if outcome.Failure? then ConnectionLostText else TextOr(outcome, EmptyReplyText)
  }

  /** `!input.trim() || isLoading`: when handleSend returns without doing anything. */
  predicate Rejected(input: string, isLoading: bool)
  {
    Trim(input) == "" || isLoading
  }

  /** A whitespace-only input is refused, and an input with any other character is accepted
      whenever no reply is pending. */
  lemma RejectedSpec(input: string, isLoading: bool)
    ensures Rejected(input, isLoading) <==>
              isLoading || forall i :: 0 <= i < |input| ==> IsWhitespace(input[i])
  {
  }

  /** The assistant widget's state. */
  class ChatAssistant {
    var messages: seq<Message>
    var input: string
    var isLoading: bool

    /** The conversation always opens with the assistant's greeting. */
    predicate Valid()
      reads this
    {
      |messages| > 0 && messages[0].role == Assistant && messages[0].content == Greeting
    }

    /** The initial state: the greeting alone, an empty input, nothing pending. */
    constructor (now: int)
      ensures Valid()
      ensures messages == [Message(Assistant, Greeting, now)]
      ensures input == "" && !isLoading
    {
      messages := [Message(Assistant, Greeting, now)];
      input := "";
      isLoading := false;
    }

    /** The input box's onChange. */
    method SetInput(text: string)
      requires Valid()
      modifies this
      ensures Valid()
      ensures input == text && messages == old(messages) && isLoading == old(isLoading)
    {
      input := text;
    }

    /** handleSend up to its `await`. A blank input or a pending reply changes nothing and
      sends nothing. Otherwise the untrimmed input is appended as the user's message, the box
      is cleared, the flag is raised, and the text handed to the service is that message's
      content. */
    method BeginSend(now: int) returns (sent: Option<string>)
      requires Valid()
      modifies this
      ensures Valid()
      ensures sent.None? <==> Rejected(old(input), old(isLoading))
      ensures sent.None? ==>
                messages == old(messages) && input == old(input) && isLoading == old(isLoading)
      ensures sent.Some? ==>
                sent.value == old(input) &&
                messages == old(messages) + [Message(User, old(input), now)] &&
                messages[|messages| - 1].content == sent.value &&
                input == "" && isLoading
    {
      if Rejected(input, isLoading) {
        return None;
      }
      var msg := Message(User, input, now);
      sent := Some(input);
      messages := messages + [msg];
      assert messages[|messages| - 1] == msg;
      input := "";
      isLoading := true;
    }

    /** handleSend after its `await`: exactly one assistant message is appended, with the
      reply for the outcome, and the `finally` lowers the flag. The input box is not touched,
      so anything typed while waiting survives. */
    method CompleteSend(outcome: Outcome, now: int)
      requires Valid()
      modifies this
      ensures Valid()
      ensures messages == old(messages) + [Message(Assistant, Reply(outcome), now)]
      ensures input == old(input) && !isLoading
    {
      messages := messages + [Message(Assistant, Reply(outcome), now)];
      isLoading := false;
    }

    /** handleSend run to completion with the call's outcome. A refused send changes nothing.
      An accepted one grows the conversation by exactly two messages, the user's untrimmed
      input and then the reply, keeps every earlier message in place, leaves the box empty
      and the flag lowered. */
    method HandleSend(outcome: Outcome, sentAt: int, repliedAt: int)
      requires Valid()
      modifies this
      ensures Valid()
      ensures Rejected(old(input), old(isLoading)) ==>
                messages == old(messages) && input == old(input) && isLoading == old(isLoading)
      ensures !Rejected(old(input), old(isLoading)) ==>
                |messages| == |old(messages)| + 2 &&
                messages[..|old(messages)|] == old(messages) &&
                messages[|old(messages)|] == Message(User, old(input), sentAt) &&
                messages[|old(messages)| + 1] == Message(Assistant, Reply(outcome), repliedAt) &&
                input == "" && !isLoading
    {
      var sent := BeginSend(sentAt);
      if sent.Some? {
        CompleteSend(outcome, repliedAt);
      }
    }
  }
}
