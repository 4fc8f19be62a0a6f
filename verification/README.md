# PrismAI message routing, in Dafny

PrismAI is a Discord assistant bot for the PrismStrap utility. Its
`index.js` has two handlers with real logic in them, and this project models
both as pure functions:

- The `MessageCreate` handler. It drops messages written by bots and
  messages outside the bot channel. It lowercases the text and, when the
  message replies to one of the bot's own messages, puts that message's
  lowercased text and a blank line in front. Then it answers with a fixed
  greeting if any greeting occurs in the text. Otherwise it answers with the
  first FAQ entry, in declaration order, whose keyword occurs. Otherwise it
  asks the chat-completion service. A non-empty completion is relayed as is,
  an empty one gets a "try again" text, and a failure gets an apology.
- The `InteractionCreate` handler. It answers the `/help` chat-input
  command, and nothing else, with a fixed list of channels that only the
  invoking user can see.

Files:

- `wrappers.dfy` holds `Option`.
- `js_string.dfy` (module `JsString`) holds `toLowerCase` over ASCII
  letters and `String.prototype.includes`. `includes` is proved equal to a
  reference definition of substring occurrence by index.
- `routing.dfy` (module `Routing`) holds the channel ids, the `FAQ` and
  `GREETINGS` tables, the first-match search, `Route`, `ResponseText` and
  `HandleMessage`.
- `routing_facts.dfy` (module `RoutingFacts`) holds what follows from the
  tables and from the order of the checks. Two FAQ entries can never be
  chosen. Case does not matter. A keyword in the message's own text still
  occurs after the context is added, though a greeting or an earlier FAQ key
  in the replied-to text takes precedence over it. Greetings win over FAQ
  keywords.
- `help_command.dfy` (module `HelpCommand`) holds the `/help` handler.

The model follows the code of this revision of `index.js`. Other revisions
of this bot add other behaviour: greetings
matched only at a word boundary, mention and direct-message gating, mention
stripping, per-channel prompts, 1990-character chunking, joke, coin and time
commands, a liveness endpoint and signal handling. This revision does none of
these, so the model does not either. In particular, its greetings are found as
plain substrings anywhere in the text.

## Model

| member | source | states |
|---|---|---|
| `JsString.Lower` | index.js:86 | lowercasing keeps the length and lowercases each character on its own |
| `JsString.LowerIdempotent` | index.js:86 | lowercasing an already lowercased text changes nothing |
| `JsString.EqualIgnoringCaseLower` | index.js:86 | texts that differ only in letter case have the same lowercase form |
| `JsString.IncludesIffOccurs` | index.js:103 | `includes` holds exactly when the key occurs at some index of the text |
| `JsString.IncludesPrefix` | index.js:110 | a text that includes a keyword also includes every prefix of that keyword |
| `Routing.FirstKeyIndex` | index.js:109-113 | the search returns the first key, in table order, that the text includes; it returns none exactly when no key occurs |
| `Routing.Classify` | index.js:101-113 | a greeting is chosen exactly when some greeting occurs; otherwise the first occurring FAQ key is chosen; otherwise nothing matches |
| `Routing.Route` | index.js:82-129 | ignores a message exactly when a bot wrote it or it is outside the bot channel; otherwise a greeting in the stitched text gets the greeting reply; otherwise the first matching FAQ key gets its answer; otherwise generation is requested with the persona and the stitched text |
| `Routing.ResponseText` | index.js:131-140 | a thrown error or a missing first choice gets the apology; a non-empty first completion is relayed verbatim; a null or empty one gets the retry text; the reply is never empty |
| `Routing.HandleMessage` | index.js:82-141 | exactly the messages that are not ignored get a reply; every reply is non-empty; the completion is used only when generation was requested |
| `Routing.AnswersNonEmpty` | index.js:23-32 | the greeting reply and every FAQ answer are non-empty |
| `RoutingFacts.TableKeysAreLowercase` | index.js:22-35 | every greeting and every FAQ keyword is lowercase |
| `RoutingFacts.LowerFixesTableKeys` | index.js:86-113 | lowercasing leaves every greeting and every FAQ keyword unchanged, so keys can be found in lowercased text |
| `RoutingFacts.RouteIgnoresCase` | index.js:86-94 | two messages that differ only in the letter case of their text and of the replied-to text are routed identically |
| `RoutingFacts.RouteOfLowercasedContent` | index.js:86 | lowercasing a message before routing does not change its route |
| `RoutingFacts.ContextOnlyFromOwnMessages` | index.js:89-99 | a reply to someone else's message, or a reply whose fetch failed, is routed like a message that replies to nothing |
| `RoutingFacts.StitchingKeepsMatches` | index.js:94 | a key found in the message's own lowercased text is still found after context is put in front |
| `RoutingFacts.GreetingWins` | index.js:101-113 | a message in the bot channel whose own text contains a greeting gets the greeting reply, whatever it replies to and whatever FAQ keyword it contains |
| `RoutingFacts.GreetingInContextWins` | index.js:92-113 | a greeting in the lowercased text of a replied-to bot message gets the greeting reply, whatever the reply itself says |
| `RoutingFacts.GreetingReplyOpensWithHello` | index.js:104 | lowercased, the greeting reply begins with the greeting "hello" |
| `RoutingFacts.ReplyToGreetingIsGreeted` | index.js:89-106 | replying to the bot's own greeting always gets the greeting again |
| `RoutingFacts.ExecutorsNeverSelected` | index.js:26-27 | the "executors" entry is never chosen, because the earlier "executor" is a prefix of it |
| `RoutingFacts.SupportNeverSelected` | index.js:30-35 | the "support" entry is never chosen, because it contains the greeting "sup", which is checked first |
| `RoutingFacts.HiyaIsRedundant` | index.js:35 | dropping "hiya" from the greetings changes no greeting decision, because it contains "hi" |
| `RoutingFacts.SubstringGreetingShadowsFaq` | index.js:101-113 | "how do i use this?" contains the "how do i use" keyword but is answered as a greeting, through the "hi" in "this" |
| `RoutingFacts.FaqAnswersLinkChannels` | index.js:23-32 | every FAQ answer links the bot, executor or support channel |
| `RoutingFacts.FirstMatchUnique` | index.js:109-112 | at most one index is the first match, so the chosen FAQ answer is determined |
| `RoutingFacts.CompletionOnlyForGeneration` | index.js:101-129 | when a greeting or FAQ rule answers, the reply does not depend on the completion service |
| `HelpCommand.HelpResponse` | index.js:63-78 | only a chat-input command named "help" gets a reply; that reply is the help text, marked ephemeral |
| `HelpCommand.HelpTextLinksAllChannels` | index.js:69-75 | the help text links the bot, executor and support channels |

## Left out

- Client construction, gateway intents, `client.login` and the registration of `/help` through the REST API (index.js:1-15, 38-60, 143). These are network plumbing.
- The chat-completion call itself (index.js:117-129). `Route` returns the request it would send: the model name, the persona and the stitched text. `Completion` is the outcome: the contents of the returned choices, or a thrown error.
- `ResponseText`: a choice that has no `message` object at all is not modelled. A choice's content is either present or null (`None`), and null gets the retry text.
- Fetching the replied-to message is an input. `Fetch` is the fetched author and text, or a failure. The bot's own user id is the `selfId` parameter.
- Sending replies (index.js:67, 104, 111, 133-139). The model returns the reply text. A rejected send is left out. In the `/help` reply and in the greeting and FAQ branches, the rejection escapes the handler as an unhandled promise rejection. In the generation branch, it is caught and the apology is sent instead.
- Logging (`console.log`, `console.warn`, `console.error`) and loading `.env` configuration.
- `JsString.Lower` folds only the ASCII letters A-Z. JavaScript's `toLowerCase` also folds other characters. Some of them fold to ASCII, for example the Kelvin sign to "k". So a text with such characters may match a key in the bot that it does not match in the model.
- Strings are sequences of Unicode scalar values, not UTF-16 code units. No modelled decision depends on string length, so the difference does not show.
- The `"executors"`, `"support"` and `"hiya"` table entries stay in the model as the source declares them. The lemmas above show that they have no effect.
