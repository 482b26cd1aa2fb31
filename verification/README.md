# Decision logic of a chat-platform assistant bot

This project models, in Dafny, the decisions made by a small chat bot that
forwards messages to a hosted language model. The chat platform and the model
client are left out. What remains is modelled as pure functions over an
explicit state:

- **Role classification** (`Roles`). A member is `owner`, `head_admin` or
  `user`. The owner test covers the hard-coded owner id, the guild owner, and
  any role named "owner" or "co-owner" in any letter case. It wins over a
  "head admin" role.
- **Rate limiter** (`RateLimit`). Each user has an entry `{start, rest_until}`.
  A user's first request opens a five-minute active window. The first request
  at or after five minutes is refused and starts a two-minute cooldown.
  Requests during the cooldown are refused. The first request after the
  cooldown opens a new window. Privileged users always pass. Time is an
  integer count of microseconds passed in as `now`.
- **Chunking** (`Chunking`). A reply longer than 2000 characters goes out as
  consecutive 2000-character slices. A shorter reply goes out as one message.
- **Routing** (`Routing`). Messages from bots are dropped. For everyone else
  the repeat-relay guard is evaluated first. It fires independently of what
  follows. Then the first matching check wins, on the lower-cased content:
  name question, creator question, NSFW keyword, and finally a mention of the
  bot, which leads to a model turn.
- **Conversation window and repeat slot** (`Memory`, `Bot`). Each model turn
  does four things:
  - it hands the model the user's last six stored turns;
  - it appends the user turn and the model turn;
  - it cuts the list back to six entries;
  - it overwrites the single repeat slot with this reply and channel.

`Bot.OnMessage` puts these pieces together as one message handler over a
`BotState` (limiter map, memory, repeat slot). It returns:

- the new state;
- the messages sent, in order;
- the history handed to the model, if the model was asked.

`Bot.Replay` runs the handler over a sequence of events.

Modules: `Options` (optional values), `Text` (ASCII lower-casing and
substring search), `Roles`, `RateLimit`, `Chunking`, `Memory`, `Routing`,
`Bot`.

## Model

| member | source | states |
|---|---|---|
| Text.Lower | my_discord_bot/main.py:79 | lower-casing keeps the length, maps each letter 'A'..'Z' to its letter 'a'..'z', and changes nothing else |
| Text.LowerIdempotent | my_discord_bot/main.py:79 | lower-casing twice is the same as lower-casing once |
| Text.Contains | my_discord_bot/main.py:91 | the scan answers true exactly when `sub` occurs at some index of `s`, as Python's `in` on strings does |
| Roles.GetRoleLevel | my_discord_bot/main.py:39-48 | `Owner` iff the id is the owner id, the member owns the guild, or a role lower-cases to "owner" or "co-owner"; `HeadAdmin` iff not an owner and a role lower-cases to "head admin"; `User` otherwise, so owner takes precedence |
| Roles.RoleLevelIgnoresCase | my_discord_bot/main.py:42-46 | role names that agree up to case give the same level |
| RateLimit.CanTalk | my_discord_bot/main.py:50-64 | the full transition table: privileged users pass with no change; during a cooldown a request is denied with no change; with no window running it is allowed and opens one at `now`; at five minutes or more into a window it is denied and a cooldown until `now + 2min` replaces the window; inside the window it is allowed with no change; other users' entries are untouched and the one-of-window-or-cooldown invariant is kept |
| RateLimit.VerdictMeaning | my_discord_bot/main.py:54-63 | for a non-privileged user, allowed iff afterwards the user's window is running and began less than five minutes before `now`; denied iff afterwards the user is cooling down past `now` |
| RateLimit.WindowBoundsAccess | my_discord_bot/main.py:54-64 | with time running forward, two allowed requests with no denial between them are less than five minutes apart |
| RateLimit.CutOffWaitsFullCooldown | my_discord_bot/main.py:55-63 | a user denied right after an allowed request gets no allowed request until two full minutes after that denial |
| RateLimit.Scenario | my_discord_bot/main.py:50-64 | from an empty map, requests at T, T+4min, T+5min01s, T+6min and T+7min02s are allowed, allowed, denied with cooldown until T+7min01s, denied, and allowed with a new window at T+7min02s |
| Chunking.SlicesSound | my_discord_bot/main.py:149 | the slices are non-empty, at most 2000 characters, all but the last exactly 2000, and concatenate back to the text |
| Chunking.Chunks | my_discord_bot/main.py:147-153 | the messages sent concatenate back to the text, each is at most 2000 characters, all but the last are exactly 2000, there is at least one, none is empty unless the text is, a text of at most 2000 characters is sent as itself, and a longer text is sent as `ceil(len/2000)` messages |
| Chunking.SliceAt | my_discord_bot/main.py:149 | the i-th slice is the text from offset `i*2000` to `(i+1)*2000`, clipped to the end of the text |
| Chunking.SliceCount | my_discord_bot/main.py:149 | there are `ceil(len/2000)` slices, one per offset of `range(0, len, 2000)` |
| Chunking.SendLongMessage | my_discord_bot/main.py:147-153 | the loop over the offsets sends exactly the messages `Chunks` describes |
| Memory.History | my_discord_bot/main.py:112 | the context given to the model has at most six turns and is a trailing part of the user's stored list: the whole list when it is shorter than six |
| Memory.Remember | my_discord_bot/main.py:134-136 | after an exchange the user's list has at most six entries and ends with the user turn followed by the model turn; other users' lists are untouched |
| Memory.RememberKeepsNewest | my_discord_bot/main.py:134-136 | with `grown` the old list followed by the new user turn and model turn, the new list is exactly the last `min(6, |grown|)` entries of `grown` |
| Memory.RememberKeepsValid | my_discord_bot/main.py:134-136 | if every stored list has at most six entries and consists of whole user/model exchanges, that stays true after an exchange |
| Routing.RouteMessage | my_discord_bot/main.py:76-106 | bot messages: no action, no relay; otherwise the relay fires iff the relay is enabled, a reply is recorded and the channel matches, and each branch is taken iff no earlier check matched and its own does |
| Routing.RouteIsFirstMatch | my_discord_bot/main.py:90-106 | the branch taken is the first rule that holds in the list bot author, name question, creator question, NSFW keyword, bot mention |
| Routing.NsfwBlocksChat | my_discord_bot/main.py:100-106 | a message that mentions the bot and contains an NSFW keyword never reaches the model; it gets the refusal unless a name or creator question matched first |
| Routing.RelayIndependentOfBranch | my_discord_bot/main.py:84 | for non-bot messages, whether the relay fires depends only on the channel, not on the content, author or mentions |
| Bot.OnMessage | my_discord_bot/main.py:72-136 | bot messages change nothing and send nothing; otherwise exactly the relayed reply's chunks (only when the guard holds) are sent, followed by the branch's own output: nothing for an unmatched message, the intro, the creator line or the warning for the keyword branches, the reply's chunks for an allowed model turn and the break notice for a refused one; keyword branches leave the state alone; on a mention the limiter decides, a refusal ends with the break notice and only updates the limiter map, and an allowed turn hands the model the user's last six turns, stores the exchange, overwrites the repeat slot with this reply and channel, and ends with the reply's chunks; the relay flag never changes and the state invariant is kept |
| Bot.Replay | my_discord_bot/main.py:72-136 | over any sequence of messages the relay flag keeps its start-up value and, from a valid state, every limiter entry stays a window or a cooldown and every conversation stays within six turns of whole exchanges |
| Bot.MemoryStaysBounded | my_discord_bot/main.py:30 | from start-up, after any sequence of messages, every user's conversation holds at most six turns and consists of whole exchanges |
| Bot.RelayNeverFires | my_discord_bot/main.py:34 | the relay flag starts off and no code path sets it, so from start-up the relay never fires |

## Left out

- Connecting to the chat platform, registering events, `on_ready`, command-tree sync and `bot.run` are I/O. Sending is modelled only as the ordered list of outputs.
- The HTTP keep-alive server start and the start-up check of the two environment variables (main.py:13-20) are process start-up.
- The language-model client is an external library. The reply is a field of the event, and the fallback apology string is one possible value of it. Configuring the client and building the persona prompt are also left out.
- The fixed reply texts are represented by the output tags `NameIntro`, `CreatorIntro`, `NsfwWarning` and `BreakNotice`.
- Handlers interleaving at `await` points is concurrency. Each message is handled atomically.
- Python's Unicode `lower()` is modelled for ASCII letters only. Other characters are left unchanged.
- Removing the bot's mention token from the content and `strip()` (main.py:111) are not modelled. The resulting text is the `input` field of the event.
- The wall clock and time zones are replaced by the integer `now`, in microseconds.
- Failed sends are not modelled. Examples are the caught failure in the relay, or a send failure that would stop the handler before memory is updated. Every send is taken to succeed.
- The comparison of the author with the guild's owner is the boolean `isGuildOwner`. Authors without guild roles, as in direct messages, are not modelled.
- Reading a user's history through the default dictionary inserts an empty list. This is not modelled because the same turn always stores that user's list right afterwards.
- RateLimit.WindowBoundsAccess and RateLimit.CutOffWaitsFullCooldown assume that successive clock readings never decrease. The source reads the wall clock, which can be set back; the single-call contract of `RateLimit.CanTalk` makes no such assumption.
