/** Properties of the message router that follow from its two fixed tables
    and from the order of its checks. */
module RoutingFacts {
  import opened Wrappers
  import opened JsString
  import opened Routing

  /** The greeting check and the FAQ lookup are only ever given lowercase
      text, and every key of both tables is lowercase. */
  lemma TableKeysAreLowercase()
    ensures forall i :: 0 <= i < |GREETINGS| ==> IsLower(GREETINGS[i])
    ensures forall k :: 0 <= k < |FAQ| ==> IsLower(FAQ[k].0)
  {
    forall k | 0 <= k < |FAQ| ensures IsLower(FAQ[k].0) {
      if k == 0 { assert FAQ[0].0 == "download"; }
      else if k == 1 { assert FAQ[1].0 == "how do i use"; }
      else if k == 2 { assert FAQ[2].0 == "executor"; }
      else if k == 3 { assert FAQ[3].0 == "executors"; }
      else if k == 4 { assert FAQ[4].0 == "injector"; }
      else if k == 5 { assert FAQ[5].0 == "updates"; }
      else if k == 6 { assert FAQ[6].0 == "support"; }
      else { assert FAQ[7].0 == "help"; }
    }
  }

  /** Hence lowercasing, which every text to match goes through, leaves the
      table keys as they are. */
  lemma LowerFixesTableKeys()
    ensures forall i :: 0 <= i < |GREETINGS| ==> Lower(GREETINGS[i]) == GREETINGS[i]
    ensures forall k :: 0 <= k < |FAQ| ==> Lower(FAQ[k].0) == FAQ[k].0
  {
    TableKeysAreLowercase();
    forall i | 0 <= i < |GREETINGS| ensures Lower(GREETINGS[i]) == GREETINGS[i] {
      LowerIsLower(GREETINGS[i]);
    }
    forall k | 0 <= k < |FAQ| ensures Lower(FAQ[k].0) == FAQ[k].0 {
      LowerIsLower(FAQ[k].0);
    }
  }

  /** Two replied-to fetches that agree except for the case of the text. */
  predicate SameFetchIgnoringCase(a: Option<Fetch>, b: Option<Fetch>) {
    match (a, b)
    case (None, None) => true
    case (Some(FetchFailed), Some(FetchFailed)) => true
    case (Some(Fetched(x, s)), Some(Fetched(y, t))) => x == y && EqualIgnoringCase(s, t)
    case _ => false
  }

  /** Messages that differ only in the case of their letters, and of the
      letters of the message they reply to, are routed identically. */
  lemma RouteIgnoresCase(m1: Message, m2: Message, selfId: string)
    requires m1.authorIsBot == m2.authorIsBot && m1.channelId == m2.channelId
    requires EqualIgnoringCase(m1.content, m2.content)
    requires SameFetchIgnoringCase(m1.reference, m2.reference)
    ensures Route(m1, selfId) == Route(m2, selfId)
  {
    EqualIgnoringCaseLower(m1.content, m2.content);
    if m1.reference.Some? && m1.reference.value.Fetched? {
      EqualIgnoringCaseLower(m1.reference.value.content, m2.reference.value.content);
    }
    assert StitchedInput(m1, selfId) == StitchedInput(m2, selfId);
  }

  /** Lowercasing a message before it reaches the handler changes nothing. */
  lemma RouteOfLowercasedContent(msg: Message, selfId: string)
    ensures Route(msg.(content := Lower(msg.content)), selfId) == Route(msg, selfId)
  {
    LowerIdempotent(msg.content);
    assert StitchedInput(msg.(content := Lower(msg.content)), selfId) == StitchedInput(msg, selfId);
  }

  /** A reply to someone else's message, or one whose replied-to message
      could not be fetched, is routed as if it replied to nothing. */
  lemma ContextOnlyFromOwnMessages(msg: Message, selfId: string)
    requires !(msg.reference.Some? && msg.reference.value.Fetched? && msg.reference.value.authorId == selfId)
    ensures Route(msg, selfId) == Route(msg.(reference := None), selfId)
  {
    assert StitchedInput(msg, selfId) == StitchedInput(msg.(reference := None), selfId);
  }

  /** Context from a replied-to message only adds text in front, so a key the
      message itself contains is still found after stitching. */
  lemma StitchingKeepsMatches(msg: Message, selfId: string, key: string)
    requires Includes(Lower(msg.content), key)
    ensures Includes(StitchedInput(msg, selfId), key)
  {
    var own := Lower(msg.content);
    assert own == [] + own + [];
    IncludesInMiddle([], own, [], key);
    if msg.reference.Some? && msg.reference.value.Fetched? && msg.reference.value.authorId == selfId {
      var pre := Lower(msg.reference.value.content) + "\n\n";
      IncludesInMiddle(pre, own, [], key);
      assert pre + own + [] == StitchedInput(msg, selfId);
    }
  }

  /** A message in the bot channel that itself contains a greeting is always
      answered with the greeting, whatever it replies to and whatever FAQ
      keyword it also contains. */
  lemma GreetingWins(msg: Message, selfId: string, i: nat)
    requires !msg.authorIsBot && msg.channelId == BOT_CHANNEL_ID
    requires i < |GREETINGS| && Includes(Lower(msg.content), GREETINGS[i])
    ensures Route(msg, selfId) == Reply(GREETING_REPLY)
  {
    StitchingKeepsMatches(msg, selfId, GREETINGS[i]);
  }

  /** Context comes first and is matched like the message's own text, so a
      greeting in a replied-to bot message wins over any FAQ keyword in the
      reply itself. */
  lemma GreetingInContextWins(msg: Message, selfId: string, replied: string, i: nat)
    requires !msg.authorIsBot && msg.channelId == BOT_CHANNEL_ID
    requires msg.reference == Some(Fetched(selfId, replied))
    requires i < |GREETINGS| && Includes(Lower(replied), GREETINGS[i])
    ensures Route(msg, selfId) == Reply(GREETING_REPLY)
  {
    IncludesInMiddle([], Lower(replied), "\n\n" + Lower(msg.content), GREETINGS[i]);
    assert [] + Lower(replied) + ("\n\n" + Lower(msg.content)) == StitchedInput(msg, selfId);
  }

  /** Replying to the bot's own greeting always gets the greeting again: the
      stitched context starts with "hello", which is itself a greeting. */
  lemma ReplyToGreetingIsGreeted(msg: Message, selfId: string)
    requires !msg.authorIsBot && msg.channelId == BOT_CHANNEL_ID
    requires msg.reference == Some(Fetched(selfId, GREETING_REPLY))
    ensures Route(msg, selfId) == Reply(GREETING_REPLY)
  {
    GreetingReplyOpensWithHello();
    IncludesOpening(Lower(GREETING_REPLY), GREETINGS[1], "\n\n" + Lower(msg.content));
    assert Lower(GREETING_REPLY) + ("\n\n" + Lower(msg.content)) == StitchedInput(msg, selfId);
  }

  /** Lowercased, the greeting reply begins with the greeting "hello". */
  lemma GreetingReplyOpensWithHello()
    ensures StartsWith(Lower(GREETING_REPLY), GREETINGS[1])
  {
    var tail := GREETING_REPLY[5..];
    assert GREETING_REPLY == "Hello" + tail;
    LowerAppend("Hello", tail);
    assert Lower("Hello") == "hello";
  }

  /** The "executors" entry can never be chosen: a text that includes it also
      includes the earlier entry "executor". */
  lemma ExecutorsNeverSelected(text: string)
    ensures Classify(text) != Faq(3)
  {
    if Classify(text) == Faq(3) {
      IncludesPrefix(text, FAQ[3].0, FAQ[2].0);
      assert false;
    }
  }

  /** The "support" entry can never be chosen: a text that includes it also
      includes the greeting "sup", which is checked first. */
  lemma SupportNeverSelected(text: string)
    ensures Classify(text) != Faq(6)
  {
    if Classify(text) == Faq(6) {
      IncludesPrefix(text, FAQ[6].0, GREETINGS[4]);
      assert false;
    }
  }

  /** "hiya" adds nothing to the greeting list: any text that includes it
      includes "hi". */
  lemma HiyaIsRedundant(text: string)
    ensures IncludesSome(text, GREETINGS) <==> IncludesSome(text, ["hi", "hello", "hey", "sup"])
  {
    var short: seq<string> := ["hi", "hello", "hey", "sup"];
    if Includes(text, GREETINGS[3]) {
      IncludesPrefix(text, GREETINGS[3], GREETINGS[0]);
    }
    if IncludesSome(text, GREETINGS) {
      var j :| 0 <= j < |GREETINGS| && Includes(text, GREETINGS[j]);
      if j == 0 { assert Includes(text, short[0]); }
      else if j == 1 { assert Includes(text, short[1]); }
      else if j == 2 { assert Includes(text, short[2]); }
      else if j == 3 { assert Includes(text, short[0]); }
      else { assert Includes(text, short[3]); }
    }
    if IncludesSome(text, short) {
      var j :| 0 <= j < |short| && Includes(text, short[j]);
      if j == 3 { assert Includes(text, GREETINGS[4]); }
      else { assert Includes(text, GREETINGS[j]); }
    }
  }

  /** Greetings are matched as substrings, so a question that happens to
      contain "hi" inside a word ("this") is taken as a greeting, ahead of the
      "how do i use" entry it also contains. */
  lemma SubstringGreetingShadowsFaq()
    ensures Includes("how do i use this?", FAQ[1].0)
    ensures Classify("how do i use this?") == Greeting
  {
    assert FAQ[1].0 == "how do i use";
    IncludesPart([], "how do i use", " this?");
    assert [] + "how do i use" + " this?" == "how do i use this?";
    IncludesPart("how do i use t", "hi", "s?");
    assert "how do i use t" + "hi" + "s?" == "how do i use this?";
    assert Includes("how do i use this?", GREETINGS[0]);
    assert IncludesSome("how do i use this?", GREETINGS);
  }

  /** Each fixed FAQ answer links one of the bot's three channels. */
  lemma FaqAnswersLinkChannels()
    ensures forall k :: 0 <= k < |FAQ| ==>
      || Includes(FAQ[k].1, ChannelMention(BOT_CHANNEL_ID))
      || Includes(FAQ[k].1, ChannelMention(EXEC_CHANNEL_ID))
      || Includes(FAQ[k].1, ChannelMention(SUPPORT_CHANNEL_ID))
  {
    IncludesPart("You can download PrismStrap here: ", ChannelMention(BOT_CHANNEL_ID), ".");
    IncludesPart("Check out the usage guide in ", ChannelMention(BOT_CHANNEL_ID), ".");
    IncludesPart("Supported executors and how to use them are listed in ", ChannelMention(EXEC_CHANNEL_ID), ".");
    IncludesPart("Supported executors and updates: ", ChannelMention(EXEC_CHANNEL_ID), ".");
    IncludesPart("Recommended injectors info: ", ChannelMention(BOT_CHANNEL_ID), ".");
    IncludesPart("Latest updates are posted in ", ChannelMention(EXEC_CHANNEL_ID), ".");
    IncludesPart("Need help? Head over to ", ChannelMention(SUPPORT_CHANNEL_ID), " for assistance.");
    IncludesPart("For support and info, visit ", ChannelMention(SUPPORT_CHANNEL_ID), " or ask me here!");
  }

  /** The first match is unique, so the FAQ answer chosen is determined. */
  lemma FirstMatchUnique(text: string, keys: seq<string>, k1: nat, k2: nat)
    requires IsFirstMatch(text, keys, k1) && IsFirstMatch(text, keys, k2)
    ensures k1 == k2
  {
  }

  /** The completion is consulted only when no rule matched: for any other
      message the handler's reply does not depend on it. */
  lemma CompletionOnlyForGeneration(msg: Message, selfId: string, c1: Completion, c2: Completion)
    requires !Route(msg, selfId).Generate?
    ensures HandleMessage(msg, selfId, c1) == HandleMessage(msg, selfId, c2)
  {
  }
}
