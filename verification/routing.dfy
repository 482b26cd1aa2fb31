/** How an incoming chat message is classified: ordered keyword checks,
    first match wins, with the repeat relay decided before them. */
module Routing {
  import opened Options
  import opened Text
  import opened Roles

  const NameQuestions: seq<string> := ["your name", "who are you", "what is your name"]
  const CreatorQuestions: seq<string> := ["who made you", "your creator", "developer", "built you"]
  const NsfwWords: seq<string> := ["nsfw", "18+", "porn", "sex"]

  /** The parts of an incoming message the router looks at. */
  datatype Message = Message(
    author: Member,
    fromBot: bool,      // the author is a bot account
    content: string,
    channel: int,
    mentionsBot: bool   // this bot is among the mentioned users
  )

  /** The single process-wide slot remembering the last model reply. */
  datatype RepeatSlot = RepeatSlot(enabled: bool, lastRecord: string, channel: Option<int>)

  datatype Action = Ignore | IntroduceName | NameCreator | RefuseNsfw | ChatWithModel

  /** What the bot does with a message: the branch taken, and whether the
      stored reply is relayed first. */
  datatype Route = Route(action: Action, relay: bool)

  /** The message content, lower-cased, contains one of `keys`. */
  predicate HasKeyword(msg: Message, keys: seq<string>) {
    ContainsAny(Lower(msg.content), keys)
  }

  /** The relay guard: enabled, something recorded, and the same channel. */
  predicate RelayFires(msg: Message, slot: RepeatSlot) {
    slot.enabled && slot.lastRecord != "" && slot.channel == Some(msg.channel)
  }

  function RouteMessage(msg: Message, slot: RepeatSlot): (r: Route)
    // messages from bots are dropped before anything else happens
    ensures msg.fromBot ==> r == Route(Ignore, false)
    // for everyone else the relay depends on the slot and the channel only
    ensures !msg.fromBot ==> (r.relay <==> RelayFires(msg, slot))
    // each branch is taken exactly when no earlier check matched and its own does
    ensures r.action == IntroduceName <==> !msg.fromBot && HasKeyword(msg, NameQuestions)
    ensures r.action == NameCreator <==>
      !msg.fromBot && !HasKeyword(msg, NameQuestions) && HasKeyword(msg, CreatorQuestions)
    ensures r.action == RefuseNsfw <==>
      !msg.fromBot && !HasKeyword(msg, NameQuestions) && !HasKeyword(msg, CreatorQuestions) && HasKeyword(msg, NsfwWords)
    ensures r.action == ChatWithModel <==>
      !msg.fromBot && !HasKeyword(msg, NameQuestions) && !HasKeyword(msg, CreatorQuestions) && !HasKeyword(msg, NsfwWords)
      && msg.mentionsBot
  {
    if msg.fromBot then
      Route(Ignore, false)
    else
      var relay := RelayFires(msg, slot);
      var lower := Lower(msg.content);
      if ContainsAny(lower, NameQuestions) then Route(IntroduceName, relay)
      else if ContainsAny(lower, CreatorQuestions) then Route(NameCreator, relay)
      else if ContainsAny(lower, NsfwWords) then Route(RefuseNsfw, relay)
      else if msg.mentionsBot then Route(ChatWithModel, relay)
      else Route(Ignore, relay)
  }

  // ---------------------------------------------------------------------
  // The same classification as a priority list

  /** The checks in the order the handler tries them, each paired with its branch. */
  function Rules(msg: Message): seq<(bool, Action)> {
    [ (msg.fromBot, Ignore),
      (HasKeyword(msg, NameQuestions), IntroduceName),
      (HasKeyword(msg, CreatorQuestions), NameCreator),
      (HasKeyword(msg, NsfwWords), RefuseNsfw),
      (msg.mentionsBot, ChatWithModel) ]
  }

  /** The branch of the first rule whose check holds; `Ignore` when none does. */
  function FirstMatch(rules: seq<(bool, Action)>): Action {
    if |rules| == 0 then Ignore
    else if rules[0].0 then rules[0].1
    else FirstMatch(rules[1..])
  }

  /** The router is first-match-wins over the ordered checks. */
  lemma RouteIsFirstMatch(msg: Message, slot: RepeatSlot)
    ensures RouteMessage(msg, slot).action == FirstMatch(Rules(msg))
  {
    var r0 := Rules(msg);
    var r1, r2, r3, r4 := r0[1..], r0[2..], r0[3..], r0[4..];
    assert r1[1..] == r2 && r2[1..] == r3 && r3[1..] == r4 && r4[1..] == [];
    assert FirstMatch(r4) == if msg.mentionsBot then ChatWithModel else Ignore;
    assert FirstMatch(r3) == if HasKeyword(msg, NsfwWords) then RefuseNsfw else FirstMatch(r4);
    assert FirstMatch(r2) == if HasKeyword(msg, CreatorQuestions) then NameCreator else FirstMatch(r3);
    assert FirstMatch(r1) == if HasKeyword(msg, NameQuestions) then IntroduceName else FirstMatch(r2);
  }

  /** A forbidden keyword blocks the model even when the bot is mentioned,
      unless a name or creator question came first. */
  lemma NsfwBlocksChat(msg: Message, slot: RepeatSlot, w: string)
    requires !msg.fromBot && msg.mentionsBot
    requires w in NsfwWords && Contains(Lower(msg.content), w)
    ensures RouteMessage(msg, slot).action != ChatWithModel
    ensures !HasKeyword(msg, NameQuestions) && !HasKeyword(msg, CreatorQuestions) ==>
      RouteMessage(msg, slot).action == RefuseNsfw
  {
  }

  /** Whether the relay fires does not depend on the text, the author or the
      mentions of a non-bot message: only on its channel. */
  lemma RelayIndependentOfBranch(a: Message, b: Message, slot: RepeatSlot)
    requires !a.fromBot && !b.fromBot && a.channel == b.channel
    ensures RouteMessage(a, slot).relay == RouteMessage(b, slot).relay
  {
  }
}
