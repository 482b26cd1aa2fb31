/** The message handler as a whole: routing, rate limiting, the model turn,
    the conversation window and the repeat slot, over an explicit state. */
module Bot {
  import opened Options
  import opened Roles
  import RateLimit
  import Chunking
  import Memory
  import opened Routing

  /** Everything the handler reads and writes between messages. */
  datatype BotState = BotState(
    timestamps: RateLimit.Timestamps,
    memory: Memory.Store,
    slot: RepeatSlot
  )

  /** The state at start-up: nothing recorded and the relay switched off. */
  const Initial := BotState(map[], map[], RepeatSlot(false, "", None))

  ghost predicate Valid(st: BotState) {
    RateLimit.Valid(st.timestamps) && Memory.Valid(st.memory)
  }

  /** One incoming message together with what the outside world supplies
      while it is handled: the clock, the message text with the bot's mention
      removed, and the model's reply (which is used only if the model is asked). */
  datatype Event = Event(msg: Message, now: int, input: string, reply: string)

  /** What the bot sends: one of its fixed replies, or a piece of text. */
  datatype Output = NameIntro | CreatorIntro | NsfwWarning | BreakNotice | Say(text: string)

  /** The new state, the messages sent in order, and the history handed to
      the model when it was asked. */
  datatype Handled = Handled(state: BotState, sent: seq<Output>, history: Option<seq<Memory.Turn>>)

  /** The messages that carry `text` to the channel. */
  function Send(text: string): (out: seq<Output>)
    ensures |out| == |Chunking.Chunks(text)|
    ensures forall i :: 0 <= i < |out| ==> out[i] == Say(Chunking.Chunks(text)[i])
  {
    var parts := Chunking.Chunks(text);
    seq(|parts|, i requires 0 <= i < |parts| => Say(parts[i]))
  }

  /** The model turn of a mentioned, non-privileged or privileged user who got
      past the keyword checks. */
  function ChatTurn(st: BotState, ev: Event, relayed: seq<Output>): (h: Handled)
    ensures h.state.slot.enabled == st.slot.enabled
    ensures Valid(st) ==> Valid(h.state)
  {
    var userId := ev.msg.author.id;
    var verdict := RateLimit.CanTalk(st.timestamps, userId, GetRoleLevel(ev.msg.author), ev.now);
    if !verdict.allowed then
      Handled(st.(timestamps := verdict.stamps), relayed + [BreakNotice], None)
    else
      var history := Memory.History(st.memory, userId);
      var memory := Memory.Remember(st.memory, userId, ev.input, ev.reply);
      Memory.RememberKeepsValid(st.memory, userId, ev.input, ev.reply);
      Handled(BotState(verdict.stamps, memory, RepeatSlot(st.slot.enabled, ev.reply, Some(ev.msg.channel))),
              relayed + Send(ev.reply), Some(history))
  }

  /** `on_message`: one message handled from start to finish. */
  function OnMessage(st: BotState, ev: Event): (h: Handled)
    // bot messages are ignored entirely
    ensures ev.msg.fromBot ==> h == Handled(st, [], None)
    // the relay, when it fires, sends the stored reply before anything else
    ensures RouteMessage(ev.msg, st.slot).relay ==>
      |h.sent| >= |Send(st.slot.lastRecord)| && h.sent[..|Send(st.slot.lastRecord)|] == Send(st.slot.lastRecord)
    // only a model turn touches the memory and the slot
    ensures h.history.None? ==> h.state.memory == st.memory && h.state.slot == st.slot
    // a model turn sees the last turns of the user, stores the exchange, and
    // overwrites the slot with this reply and channel
    ensures h.history.Some? ==>
      && RouteMessage(ev.msg, st.slot).action == ChatWithModel
      && h.history.value == Memory.History(st.memory, ev.msg.author.id)
      && h.state.memory == Memory.Remember(st.memory, ev.msg.author.id, ev.input, ev.reply)
      && h.state.slot == RepeatSlot(st.slot.enabled, ev.reply, Some(ev.msg.channel))
      && |h.sent| >= |Send(ev.reply)| && h.sent[|h.sent| - |Send(ev.reply)|..] == Send(ev.reply)
    // the rate limiter is consulted only for a mention that passed the keyword
    // checks; the model is asked exactly when it allows the request, and a
    // refusal ends with the break notice
    ensures RouteMessage(ev.msg, st.slot).action != ChatWithModel ==> h.state == st && h.history.None?
    ensures RouteMessage(ev.msg, st.slot).action == ChatWithModel ==>
      var v := RateLimit.CanTalk(st.timestamps, ev.msg.author.id, GetRoleLevel(ev.msg.author), ev.now);
      && h.state.timestamps == v.stamps
      && (h.history.Some? <==> v.allowed)
      && (!v.allowed ==> |h.sent| > 0 && h.sent[|h.sent| - 1] == BreakNotice)
    // exactly what is sent, per branch: the relayed reply when the guard
    // holds, then the branch's own reply
    ensures !ev.msg.fromBot ==>
      var route := RouteMessage(ev.msg, st.slot);
      var pre := if route.relay then Send(st.slot.lastRecord) else [];
      && (route.action == Ignore ==> h.sent == pre)
      && (route.action == IntroduceName ==> h.sent == pre + [NameIntro])
      && (route.action == NameCreator ==> h.sent == pre + [CreatorIntro])
      && (route.action == RefuseNsfw ==> h.sent == pre + [NsfwWarning])
      && (route.action == ChatWithModel ==>
            var v := RateLimit.CanTalk(st.timestamps, ev.msg.author.id, GetRoleLevel(ev.msg.author), ev.now);
            h.sent == pre + (if v.allowed then Send(ev.reply) else [BreakNotice]))
    // nothing ever switches the relay on or off
    ensures h.state.slot.enabled == st.slot.enabled
    ensures Valid(st) ==> Valid(h.state)
  {
    var msg := ev.msg;
    if msg.fromBot then
      Handled(st, [], None)
    else
      var route := RouteMessage(msg, st.slot);
      var relayed := if route.relay then Send(st.slot.lastRecord) else [];
      match route.action
      case Ignore => Handled(st, relayed, None)
      case IntroduceName => Handled(st, relayed + [NameIntro], None)
      case NameCreator => Handled(st, relayed + [CreatorIntro], None)
      case RefuseNsfw => Handled(st, relayed + [NsfwWarning], None)
      case ChatWithModel => ChatTurn(st, ev, relayed)
  }

  /** The state after handling the events in order. */
  function Replay(st: BotState, evs: seq<Event>): (r: BotState)
    ensures r.slot.enabled == st.slot.enabled
    ensures Valid(st) ==> Valid(r)
    decreases |evs|
  {
    if |evs| == 0 then st else Replay(OnMessage(st, evs[0]).state, evs[1..])
  }

  /** From start-up, however many messages arrive, no conversation holds
      more than six turns and every stored one is made of whole exchanges. */
  lemma MemoryStaysBounded(evs: seq<Event>, userId: int)
    ensures |Memory.Lookup(Replay(Initial, evs).memory, userId)| <= Memory.Capacity
    ensures Memory.Paired(Memory.Lookup(Replay(Initial, evs).memory, userId))
  {
    assert Valid(Initial);
  }

  /** The relay flag starts off and nothing turns it on, so from start-up
      the relay never fires. */
  lemma RelayNeverFires(evs: seq<Event>, k: nat)
    requires k < |evs|
    ensures !RouteMessage(evs[k].msg, Replay(Initial, evs[..k]).slot).relay
  {
  }
}
