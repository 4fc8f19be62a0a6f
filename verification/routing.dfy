/** The per-message routing decision of the bot's `MessageCreate` handler:
    which messages are ignored, how the text to match is built, the greeting
    check, the first-match FAQ lookup and the fallback to a chat completion,
    with the reply chosen for each completion outcome. */
module Routing {
  import opened Wrappers
  import opened JsString

  // Identifiers of the three channels the bot refers to.
  const BOT_CHANNEL_ID: string := "1369349351637389352"
  const EXEC_CHANNEL_ID: string := "1369681918278242465"
  const SUPPORT_CHANNEL_ID: string := "1346152690975244348"

  /** How a channel is written inside a message so that it renders as a link. */
  function ChannelMention(id: string): string {
    "<#" + id + ">"
  }

  /** An answer text that links one channel between two fixed pieces of text. */
  function LinkText(before: string, id: string, after: string): string {
    before + ChannelMention(id) + after
  }

  /** The FAQ table: lowercase keyword and answer, in declaration order, which
      is the order the lookup tries them in. */
  const FAQ: seq<(string, string)> := [
    ("download", LinkText("You can download PrismStrap here: ", BOT_CHANNEL_ID, ".")),
    ("how do i use", LinkText("Check out the usage guide in ", BOT_CHANNEL_ID, ".")),
    ("executor", LinkText("Supported executors and how to use them are listed in ", EXEC_CHANNEL_ID, ".")),
    ("executors", LinkText("Supported executors and updates: ", EXEC_CHANNEL_ID, ".")),
    ("injector", LinkText("Recommended injectors info: ", BOT_CHANNEL_ID, ".")),
    ("updates", LinkText("Latest updates are posted in ", EXEC_CHANNEL_ID, ".")),
    ("support", LinkText("Need help? Head over to ", SUPPORT_CHANNEL_ID, " for assistance.")),
    ("help", LinkText("For support and info, visit ", SUPPORT_CHANNEL_ID, " or ask me here!"))
  ]

  const GREETINGS: seq<string> := ["hi", "hello", "hey", "hiya", "sup"]

  /** The greeting reply, kept as its opening word and the rest. */
  const GREETING_REPLY: string := "Hello" + "! \U{1F44B} How can I assist you with PrismStrap today?"
  const RETRY_REPLY: string := "Sorry, I couldn't think of a response. Please try again."
  const APOLOGY_REPLY: string :=
    "\U{26A0}\U{FE0F} Sorry, I encountered an error while trying to respond. Please try again later."

  const CHAT_MODEL: string := "gpt-3.5-turbo"
  const PERSONA: string :=
    "You are PrismStrap AI, a helpful and friendly Discord bot assistant for the PrismStrap Roblox utility client."

  /** What fetching the replied-to message produced: its author and text, or a failure. */
  datatype Fetch = Fetched(authorId: string, content: string) | FetchFailed

  /** An incoming message; `reference` is `None` when it replies to nothing. */
  datatype Message = Message(authorIsBot: bool, channelId: string, content: string, reference: Option<Fetch>)

  datatype ChatMessage = ChatMessage(role: string, content: string)
  datatype ChatRequest = ChatRequest(model: string, messages: seq<ChatMessage>)

  /** What the handler does with a message. */
  datatype Decision = Ignore | Reply(text: string) | Generate(request: ChatRequest)

  /** Which rule the text to match hits first. */
  datatype Match = Greeting | Faq(index: nat) | NoMatch

  /** What the chat-completion call produced: the contents of its choices
      (`None` for a missing content), or a thrown error. */
  datatype Completion = Completed(choices: seq<Option<string>>) | Failed

  function FaqKeys(): (keys: seq<string>)
    ensures |keys| == |FAQ|
    ensures forall k :: 0 <= k < |FAQ| ==> keys[k] == FAQ[k].0
  {
    seq(|FAQ|, k requires 0 <= k < |FAQ| => FAQ[k].0)
  }

  /** `text` includes the key at `k` and none of the keys before it. */
  ghost predicate IsFirstMatch(text: string, keys: seq<string>, k: nat) {
    k < |keys| && Includes(text, keys[k]) && forall j :: 0 <= j < k ==> !Includes(text, keys[j])
  }

  ghost predicate IncludesSome(text: string, keys: seq<string>) {
    exists j :: 0 <= j < |keys| && Includes(text, keys[j])
  }

  /** The search that the loops over the tables perform: the index of the
      first key, in order, that the text includes. */
  function FirstKeyIndex(text: string, keys: seq<string>): (r: Option<nat>)
    ensures r.Some? ==> IsFirstMatch(text, keys, r.value)
    ensures r.None? <==> !IncludesSome(text, keys)
  {
    if |keys| == 0 then None
    else if Includes(text, keys[0]) then Some(0)
    else match FirstKeyIndex(text, keys[1..])
      case None => None
      case Some(k) => Some(k + 1)
  }

  /** The greeting check, then the FAQ lookup. */
  function Classify(text: string): (m: Match)
    ensures m == Greeting <==> IncludesSome(text, GREETINGS)
    ensures m.Faq? ==> !IncludesSome(text, GREETINGS) && IsFirstMatch(text, FaqKeys(), m.index)
    ensures m == NoMatch <==> !IncludesSome(text, GREETINGS) && !IncludesSome(text, FaqKeys())
  {
    if FirstKeyIndex(text, GREETINGS).Some? then Greeting
    else match FirstKeyIndex(text, FaqKeys())
      case Some(k) => Faq(k)
      case None => NoMatch
  }

  /** The lowercased text, preceded by the lowercased text of the replied-to
      message and a blank line when that message was written by the bot. */
  function StitchedInput(msg: Message, selfId: string): string {
    match msg.reference
    case Some(Fetched(author, replied)) =>
      if author == selfId then Lower(replied) + "\n\n" + Lower(msg.content) else Lower(msg.content)
    case _ => Lower(msg.content)
  }

  function GenerationRequest(text: string): ChatRequest {
    ChatRequest(CHAT_MODEL, [ChatMessage("system", PERSONA), ChatMessage("user", text)])
  }

  /** The routing decision for one message; `selfId` is the bot's own user id. */
  function Route(msg: Message, selfId: string): (d: Decision)
    ensures d.Ignore? <==> msg.authorIsBot || msg.channelId != BOT_CHANNEL_ID
    ensures !d.Ignore? && IncludesSome(StitchedInput(msg, selfId), GREETINGS) ==> d == Reply(GREETING_REPLY)
    ensures !d.Ignore? && !IncludesSome(StitchedInput(msg, selfId), GREETINGS) && IncludesSome(StitchedInput(msg, selfId), FaqKeys())
            ==> exists k: nat :: IsFirstMatch(StitchedInput(msg, selfId), FaqKeys(), k) && d == Reply(FAQ[k].1)
    ensures d.Reply? ==> d.text == GREETING_REPLY || exists k :: 0 <= k < |FAQ| && d.text == FAQ[k].1
    ensures d.Generate? <==> !d.Ignore? && !IncludesSome(StitchedInput(msg, selfId), GREETINGS)
                             && !IncludesSome(StitchedInput(msg, selfId), FaqKeys())
    ensures d.Generate? ==> d.request.model == CHAT_MODEL
                            && d.request.messages == [ChatMessage("system", PERSONA), ChatMessage("user", StitchedInput(msg, selfId))]
  {
    if msg.authorIsBot || msg.channelId != BOT_CHANNEL_ID then Ignore
    else
      var text := StitchedInput(msg, selfId);
      match Classify(text)
      case Greeting => Reply(GREETING_REPLY)
      case Faq(k) => Reply(FAQ[k].1)
      case NoMatch => Generate(GenerationRequest(text))
  }

  /** The reply sent once the completion call has finished or failed. */
  function ResponseText(c: Completion): (r: string)
    ensures r != []
    ensures c.Failed? || c.choices == [] ==> r == APOLOGY_REPLY
    ensures c.Completed? && c.choices != [] && c.choices[0].Some? && c.choices[0].value != [] ==> r == c.choices[0].value
    ensures c.Completed? && c.choices != [] && (c.choices[0].None? || c.choices[0].value == []) ==> r == RETRY_REPLY
  {
    match c
    case Failed => APOLOGY_REPLY
    case Completed(choices) =>
      if choices == [] then APOLOGY_REPLY
      else match choices[0]
        case Some(content) => if content != [] then content else RETRY_REPLY
        case None => RETRY_REPLY
  }

  /** None of the fixed answers is empty. */
  lemma AnswersNonEmpty()
    ensures GREETING_REPLY != []
    ensures forall k :: 0 <= k < |FAQ| ==> FAQ[k].1 != []
  {
  }

  /** The whole handler: the text it replies with, if any, given what the
      completion call would produce. */
  function HandleMessage(msg: Message, selfId: string, completion: Completion): (r: Option<string>)
    ensures r.None? <==> msg.authorIsBot || msg.channelId != BOT_CHANNEL_ID
    ensures r.Some? ==> r.value != []
    ensures Route(msg, selfId).Reply? ==> r == Some(Route(msg, selfId).text)
    ensures Route(msg, selfId).Generate? ==> r == Some(ResponseText(completion))
  {
    AnswersNonEmpty();
    match Route(msg, selfId)
    case Ignore => None
    case Reply(text) => Some(text)
    case Generate(_) => Some(ResponseText(completion))
  }
}
