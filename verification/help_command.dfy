/** The bot's `InteractionCreate` handler: it answers only the `/help`
    chat-input command, with a fixed list of the bot's channels that only the
    invoking user can see. */
module HelpCommand {
  import opened Wrappers
  import opened JsString
  import opened Routing

  /** An incoming interaction: a chat-input (slash) command with its name, or
      any other kind of interaction (buttons, menus, autocomplete, ...). */
  datatype Interaction = ChatInputCommand(commandName: string) | OtherInteraction

  /** The content of an interaction reply and whether only the invoker sees it. */
  datatype InteractionReply = InteractionReply(content: string, ephemeral: bool)

  const HELP_HEADING: string := "**PrismStrap Support and Resources**\n\n"
  const DOWNLOAD_LINE: string := "\U{2022} \U{1F4E5} Download & Usage: "
  const EXECUTORS_LINE: string := "\n\U{2022} \U{1F527} Supported Executors & Updates: "
  const SUPPORT_LINE: string := "\n\U{2022} \U{1F198} Support Channel: "
  const HELP_CLOSING: string := "\n\nFeel free to ask me any questions here!"

  const HELP_TEXT: string :=
    HELP_HEADING
    + DOWNLOAD_LINE + ChannelMention(BOT_CHANNEL_ID)
    + EXECUTORS_LINE + ChannelMention(EXEC_CHANNEL_ID)
    + SUPPORT_LINE + ChannelMention(SUPPORT_CHANNEL_ID)
    + HELP_CLOSING

  /** The reply to an interaction, if any. */
  function HelpResponse(i: Interaction): (r: Option<InteractionReply>)
    ensures r.Some? <==> i.ChatInputCommand? && i.commandName == "help"
    ensures r.Some? ==> r.value.ephemeral && r.value.content == HELP_TEXT
  {
    match i
    case ChatInputCommand(name) =>
      if name == "help" then Some(InteractionReply(HELP_TEXT, true)) else None
    case OtherInteraction => None
  }

  /** The help text links each of the bot's three channels. */
  lemma HelpTextLinksAllChannels()
    ensures Includes(HELP_TEXT, ChannelMention(BOT_CHANNEL_ID))
    ensures Includes(HELP_TEXT, ChannelMention(EXEC_CHANNEL_ID))
    ensures Includes(HELP_TEXT, ChannelMention(SUPPORT_CHANNEL_ID))
  {
    LinesIncludeTheirLinks(
      HELP_HEADING + DOWNLOAD_LINE, ChannelMention(BOT_CHANNEL_ID),
      EXECUTORS_LINE, ChannelMention(EXEC_CHANNEL_ID),
      SUPPORT_LINE, ChannelMention(SUPPORT_CHANNEL_ID),
      HELP_CLOSING);
  }

  /** Text made of three links between four pieces includes each link. */
  lemma LinesIncludeTheirLinks(a: string, x: string, b: string, y: string, c: string, z: string, d: string)
    ensures Includes(a + x + b + y + c + z + d, x)
    ensures Includes(a + x + b + y + c + z + d, y)
    ensures Includes(a + x + b + y + c + z + d, z)
  {
    var s := a + x + b + y + c + z + d;
    IncludesPart(a, x, b + y + c + z + d);
    assert a + x + (b + y + c + z + d) == s;
    IncludesPart(a + x + b, y, c + z + d);
    assert a + x + b + y + (c + z + d) == s;
    IncludesPart(a + x + b + y + c, z, d);
  }
}
