/** The attorney's disclosure page (frontend/src/pages/lawyer/DisclosureDetail.tsx): the
    chat with the AI assistant, whose request `AiService` answers, and the simulated chat
    with the inventor. It shows the same draft `PatentTemplate` builds. The assistant's
    reply (or its failure) and the random draw of the simulated answer are parameters;
    timestamps are not modelled. */
module LawyerDetail {
  import opened Wrappers
  import opened Strings
  import AiService

  /** A message in one of the page's chats. */
  datatype Entry = Entry(id: int, role: string, content: string)

  const UserRole := "user"
  const AssistantRole := "assistant"

  const AssistantGreeting := "Hello! I'm your AI patent assistant. I can help you with:\n\n• Patent drafting guidance\n• Legal terminology and best practices\n• Prior art research\n• Claim structure optimization\n\nHow can I assist you today?"
  const InventorGreeting := "Hi! I'm the inventor. Feel free to ask me any questions about the invention disclosure. I'm here to provide clarifications and additional details."
  const Apology := "Sorry, I encountered an error. Please try again later."

  /** The six answers the simulated inventor picks from. */
  const InventorResponses: seq<string> := [
    "Thank you for your question. Let me provide more details about that aspect of the invention...",
    "That's a great point. The key technical feature here is designed to address scalability concerns we identified during development.",
    "Yes, we've conducted preliminary testing and the results show significant improvement over existing solutions. I can share the test data if needed.",
    "The prior art in this field typically uses method A, but our approach with method B provides better efficiency and lower costs.",
    "I'd be happy to clarify that section. The technical implementation involves three main components that work together...",
    "We chose this approach after evaluating several alternatives. The main advantage is the reduced complexity while maintaining performance."
  ]

  /** The chat as the API receives it: the id and timestamp dropped. */
  function ApiMessages(entries: seq<Entry>): (r: seq<AiService.ChatMessage>)
    ensures |r| == |entries|
    ensures forall i :: 0 <= i < |r| ==> r[i].role == entries[i].role && r[i].content == entries[i].content
  {
    if entries == [] then []
    else
      var last := entries[|entries| - 1];
      ApiMessages(entries[..|entries| - 1]) + [AiService.ChatMessage(last.role, last.content)]
  }

  /** Converting a longer chat converts its earlier part the same way. */
  lemma {:induction false} ApiMessagesAppend(entries: seq<Entry>, e: Entry)
    ensures ApiMessages(entries + [e]) == ApiMessages(entries) + [AiService.ChatMessage(e.role, e.content)]
  {
    assert (entries + [e])[..|entries|] == entries;
  }

  /** The ids of a chat count up from 1 in order. */
  predicate Numbered(entries: seq<Entry>) {
    forall i :: 0 <= i < |entries| ==> entries[i].id == i + 1
  }

  /** Appending the question as `length + 1` and the answer as `length + 2` keeps the ids
      counting up, so every message has its own id. */
  lemma NumberedExchange(entries: seq<Entry>, question: Entry, answer: Entry)
    requires Numbered(entries)
    requires question.id == |entries| + 1 && answer.id == |entries| + 2
    ensures Numbered(entries + [question, answer])
    ensures forall i, j :: 0 <= i < j < |entries| + 2 ==> (entries + [question, answer])[i].id != (entries + [question, answer])[j].id
  {
  }

  class LawyerPage {
    var messages: seq<Entry>
    var inputMessage: string
    var isAiTyping: bool
    var inventorMessages: seq<Entry>
    var inventorInputMessage: string

    /** Both chats are numbered from 1 in order. */
    predicate Valid()
      reads this
    {
      Numbered(messages) && Numbered(inventorMessages)
    }

    constructor()
      ensures Valid()
      ensures messages == [Entry(1, AssistantRole, AssistantGreeting)] && inputMessage == [] && !isAiTyping
      ensures inventorMessages == [Entry(1, AssistantRole, InventorGreeting)] && inventorInputMessage == []
    {
      messages := [Entry(1, AssistantRole, AssistantGreeting)];
      inputMessage := [];
      isAiTyping := false;
      inventorMessages := [Entry(1, AssistantRole, InventorGreeting)];
      inventorInputMessage := [];
    }

    /** `handleSendMessage`: nothing for a blank input. Otherwise the input is appended as
        the user's message (id `length + 1`) and cleared, the whole chat so far with the
        new message is sent without ids, and exactly one assistant message follows
        (id `length + 2`): the reply, or the apology when the request fails. The page is
        typing while the request runs and not afterwards. */
    method SendMessage(reply: Option<string>)
      returns (payload: Option<seq<AiService.ChatMessage>>, typingDuringCall: bool)
      modifies this
      ensures IsBlank(old(inputMessage)) ==>
        payload.None? && messages == old(messages) && inputMessage == old(inputMessage)
        && isAiTyping == old(isAiTyping)
      ensures !IsBlank(old(inputMessage)) ==>
        payload == Some(ApiMessages(old(messages)) + [AiService.ChatMessage(UserRole, old(inputMessage))])
        && messages == old(messages) + [
             Entry(|old(messages)| + 1, UserRole, old(inputMessage)),
             Entry(|old(messages)| + 2, AssistantRole, reply.GetOr(Apology))]
        && inputMessage == [] && typingDuringCall && !isAiTyping
      ensures inventorMessages == old(inventorMessages) && inventorInputMessage == old(inventorInputMessage)
      ensures old(Valid()) ==> Valid()
    {
      if JsTrim(inputMessage) == [] {
        return None, false;
      }
      var before := messages;
      var userMessage := Entry(|before| + 1, UserRole, inputMessage);
      messages := messages + [userMessage];
      inputMessage := [];
      isAiTyping := true;
      ApiMessagesAppend(before, userMessage);
      payload := Some(ApiMessages(before + [userMessage]));
      typingDuringCall := isAiTyping;
      var answer := match reply
        case Some(text) => Entry(|before| + 2, AssistantRole, text)
        case None => Entry(|before| + 2, AssistantRole, Apology);
      messages := messages + [answer];
      isAiTyping := false;
      assert messages == before + [userMessage, answer];
      if Numbered(before) {
        NumberedExchange(before, userMessage, answer);
      }
    }

    /** `handleSendInventorMessage`: nothing for a blank input. Otherwise the attorney's
        message is appended (id `length + 1`) and the input cleared, then the simulated
        inventor answers with the response `Math.floor(Math.random() * 6)` picks, here
        `draw` (id `length + 2`). */
    method SendInventorMessage(draw: nat)
      requires draw < |InventorResponses|
      modifies this
      ensures IsBlank(old(inventorInputMessage)) ==>
        inventorMessages == old(inventorMessages) && inventorInputMessage == old(inventorInputMessage)
      ensures !IsBlank(old(inventorInputMessage)) ==>
        inventorMessages == old(inventorMessages) + [
          Entry(|old(inventorMessages)| + 1, UserRole, old(inventorInputMessage)),
          Entry(|old(inventorMessages)| + 2, AssistantRole, InventorResponses[draw])]
        && inventorInputMessage == []
      ensures messages == old(messages) && inputMessage == old(inputMessage) && isAiTyping == old(isAiTyping)
      ensures old(Valid()) ==> Valid()
    {
      if JsTrim(inventorInputMessage) == [] {
        return;
      }
      var before := inventorMessages;
      var attorneyMessage := Entry(|before| + 1, UserRole, inventorInputMessage);
      inventorMessages := inventorMessages + [attorneyMessage];
      inventorInputMessage := [];
      var inventorMessage := Entry(|before| + 2, AssistantRole, InventorResponses[draw]);
      inventorMessages := inventorMessages + [inventorMessage];
      assert inventorMessages == before + [attorneyMessage, inventorMessage];
      if Numbered(before) {
        NumberedExchange(before, attorneyMessage, inventorMessage);
      }
    }
  }
}
