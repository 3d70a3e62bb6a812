/** The conversation state of the chat assistant (ChatAssistant.tsx): the message log,
    the input box and the typing indicator, with `handleSendMessage` split into its two
    steps. Sending appends the user's message and raises the indicator; the response
    step, which the component runs on a timer, appends the assistant's answer to the
    text that was sent and lowers the indicator. */
module Session {
  import opened Text
  import opened Classifier

  datatype Sender = User | Ai

  /** A log entry. Ids and timestamps come from the clock and are not part of the model. */
  datatype Message = Message(sender: Sender, content: string, category: Option<string>)

  const GreetingText: string :=
    "Hello! I'm your Astreea AI assistant. I can help you with troubleshooting, optimization tips, and maintenance guidance. What can I help you with today?"

  /** The message the log starts with. */
  const Greeting: Message := Message(Ai, GreetingText, Some("greeting"))

  class ChatSession {
    var messages: seq<Message>
    var inputValue: string
    var isTyping: bool

    /** The log opens with the greeting, the only entry with a category; later user
        entries are never blank. */
    ghost predicate Valid()
      reads this
    {
      |messages| >= 1 && messages[0] == Greeting
      && (forall i :: 1 <= i < |messages| && messages[i].sender == User ==>
            !IsBlank(messages[i].content))
      && (forall i :: 1 <= i < |messages| ==> messages[i].category == None)
    }

    /** The initial state: only the greeting, an empty input box, nobody typing. */
    constructor ()
      ensures Valid()
      ensures messages == [Greeting] && inputValue == "" && !isTyping
    {
      messages := [Greeting];
      inputValue := "";
      isTyping := false;
    }

    /** Typing into the input box. */
    method SetInput(value: string)
      modifies this
      ensures inputValue == value
      ensures messages == old(messages) && isTyping == old(isTyping)
      ensures old(Valid()) ==> Valid()
    {
      inputValue := value;
    }

    /** The first step of `handleSendMessage`. Blank input changes nothing. Otherwise the
        input becomes a user message at the end of the log, the box is cleared and the
        indicator goes up; the text sent is returned for the response step. */
    method SendMessage() returns (sent: Option<string>)
      requires Valid()
      modifies this
      ensures Valid()
      ensures IsBlank(old(inputValue)) ==>
                sent == None && messages == old(messages)
                && inputValue == old(inputValue) && isTyping == old(isTyping)
      ensures !IsBlank(old(inputValue)) ==>
                sent == Some(old(inputValue))
                && messages == old(messages) + [Message(User, old(inputValue), None)]
                && inputValue == "" && isTyping
    {
      TrimEmptyIffBlank(inputValue);
      if Trim(inputValue) == "" {
        return None;
      }
      sent := Some(inputValue);
      messages := messages + [Message(User, inputValue, None)];
      inputValue := "";
      isTyping := true;
    }

    /** The second step of `handleSendMessage`: the answer to the text that was sent is
        appended and the indicator goes down. The input box is left as it is. */
    method DeliverResponse(sent: string)
      requires Valid()
      modifies this
      ensures Valid()
      ensures messages == old(messages) + [Message(Ai, GenerateResponse(sent), None)]
      ensures !isTyping && inputValue == old(inputValue)
    {
      messages := messages + [Message(Ai, GenerateResponse(sent), None)];
      isTyping := false;
    }
  }

  /** A full exchange from the initial state: typing a non-blank text, sending it and
      receiving the answer leaves the greeting, the text and its answer, in that order. */
  method Exchange(text: string) returns (log: seq<Message>, typing: bool)
    ensures IsBlank(text) ==> log == [Greeting] && !typing
    ensures !IsBlank(text) ==>
              log == [Greeting, Message(User, text, None), Message(Ai, GenerateResponse(text), None)]
              && !typing
  {
    var chat := new ChatSession();
    chat.SetInput(text);
    var sent := chat.SendMessage();
    if sent.Some? {
      chat.DeliverResponse(sent.value);
    }
    log, typing := chat.messages, chat.isTyping;
  }
}
