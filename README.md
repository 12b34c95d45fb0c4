# opencode-discord-bot, modelled in Dafny

The bot bridges Discord channels to sessions of a local `opencode serve`
process. A channel is bound to an OpenCode session with `!start`. Ordinary
messages in a bound channel are sent to that session. The reply's text parts
are posted back, cut into pieces that fit Discord's 2000-character limit. A
small admin HTTP API, guarded by a bearer token, lets scripts create a
channel with a session and a first prompt.

This project models the deterministic core of the bot and proves properties
of it:

- `Chunker` (`chunker.dfy`): `chunk_message`. The imperative loop is proved
  against a recursive specification. That specification is proved to respect
  the limit, to choose the cut as the source does, and to be reassemblable
  from its chunks and the newline runs dropped at the cuts.
- `OpenCodeClient` (`opencode_client.dfy`):
  - `extract_text`, as a loop proved against a specification;
  - the `create_session` and `send_message` bodies, the `list_messages`
    parameters and `base_url`, each with a round-trip partner; `_auth`,
    characterised by its ensures;
  - the `_process`/`_http` state machine of `start_server`,
    `_wait_healthy` and `stop_server`, as a `Client` class. Its health poll
    is proved bounded and to stop at the first healthy answer.
- `DiscordBot` (`discord_bot.dfy`): the `OpenCodeBot` registry as a `Bot`
  class holding a `map`, with `!start`, `!stop`, `!status`, the relay filter
  and output of `on_message`, `cleanup_sessions` and `_channel_allowed`.
- `ApiServer` (`api_server.dfy`): `auth_middleware`, the two routes and
  `_handle_trigger`, as pure functions from a request to an outcome.
- `Text`, `Json` and `Wrappers`: the Python string primitives the code relies
  on, with Python's semantics:
  - `strip` removes Unicode whitespace;
  - `rfind` with an end bound;
  - `lstrip` of one character;
  - `str(int)`;
  - decoded JSON values with `dict.get` and truthiness;
  - `Option` and `Result`.

The OpenCode server, Discord and channel creation are oracles. Their answers
are parameters:
- `spawn` and `answer` for the subprocess and the health polls;
- `created` for `create_session`;
- `reply` for `send_message` plus `extract_text`;
- `names` for `get_channel`;
- `create` for `create_session_channel`.

What the bot would post comes back as a sequence of `Notice` values. Emoji
and wording are not modelled.

Behaviour of the code worth knowing, which the model keeps:

- `start_server` on a running server only logs a warning and returns. It
  raises nothing (`opencode_client.py:65-67`).
- When the health poll gives up, `start_server` raises but does not kill the
  process. `_process` stays set, so a later `start_server` is a no-op
  (`opencode_client.py:79-88`).
- `extract_text` also answers the placeholder when the text parts hold only
  whitespace, and not only when there are none (`opencode_client.py:267`).
- `chunk_message` searches for a newline only strictly below `limit`
  (`rfind(…, 0, limit)`). A newline at index `limit` is never used.
- Newlines dropped after the last cut are lost too. So the text is
  `c1 + n1 + … + ck + nk`, with a run after the last chunk as well
  (`Chunker.Reassembly`).
- `!start` stores `session.get("id") or session.get("ID")`, which may be
  `None`. The binding is made before `session_id[:8]` raises, so the channel
  stays bound to `None`:
  - `!stop` removes that binding but answers "no active session";
  - `!status` fails whenever such a binding exists;
  - the relay ignores the channel.
  The registry is therefore a `map<int, Option<string>>`.
- With an empty secret key the startup warning says "all requests are
  accepted". The middleware still answers 401 to any request without a
  `Bearer ` prefix (`ApiServer.EmptySecretStillNeedsBearer`).
- A trigger whose channel was created still fails with a 500 if the result
  has a `session_id` that cannot be sliced, such as `null` or a number. The
  cause is the success log line (`api_server.py:133`).

## Model

| member | source | states |
|---|---|---|
| Chunker.SplitPoint | src/discord_bot.py:39-41 | the cut lies in `[limit // 2, limit]`, and a cut below `limit` is at a newline |
| Chunker.SplitPointCut | src/discord_bot.py:39-43 | the cut is the last newline before `limit` when that newline is at `limit // 2` or later; otherwise there is no newline in `[limit // 2, limit)` and the cut is `limit`; the newline cut at is not in the chunk |
| Chunker.Remainder | src/discord_bot.py:44 | the rest after a cut is no longer than the text after the cut, does not start with a newline, and is strictly shorter when the cut is at a newline |
| Chunker.ChunkMessageSpec | src/discord_bot.py:24-46 | `chunk_message` as a value; stated by `ChunksFit`, `Reassembly`, `LaterChunksStartClean` and `ChunkCount`, and `ChunkMessage` is proved equal to it |
| Chunker.ChunkLoop | src/discord_bot.py:32-46 | the `while text:` loop as recursion; stated by `ChunkLoopStep`, `ChunkLoopFits`, `ChunkLoopGaps`, `ChunkLoopStartsClean` and `ChunkLoopCount` |
| Chunker.ChunkMessage | src/discord_bot.py:24-46 | the loop returns exactly the specified chunks; a text that fits comes back as `[text]`, the empty text included; with a positive limit there is at least one chunk and every chunk fits |
| Chunker.ChunkLoopFromAppend | src/discord_bot.py:32-45 | resuming the loop with some chunks already emitted yields those chunks followed by the chunks of the rest |
| Chunker.ChunkLoopStep | src/discord_bot.py:43-44 | one iteration emits `text[:split_at]` and continues with the stripped rest |
| Chunker.ChunksFit | src/discord_bot.py:29-46 | with `limit >= 1` there is at least one chunk, and every chunk is at most `limit` long |
| Chunker.ChunkLoopFits | src/discord_bot.py:33-44 | every chunk the loop emits is at most `limit` long, and a non-empty text yields at least one chunk |
| Chunker.Reassembly | src/discord_bot.py:43-44 | the text is the chunks in order, each followed by a run of newlines only; nothing else is lost |
| Chunker.ChunkLoopGaps | src/discord_bot.py:43-44 | gives the dropped newline runs, one per chunk, that interleave with the chunks back into the text |
| Chunker.CutDecomposes | src/discord_bot.py:43-44 | a cut splits the text into the chunk, a run of newlines and the remainder |
| Chunker.LaterChunksStartClean | src/discord_bot.py:44 | no chunk after the first is empty or starts with a newline |
| Chunker.ChunkLoopStartsClean | src/discord_bot.py:44 | a text not starting with a newline gives chunks that are non-empty and do not start with a newline |
| Chunker.ChunkCount | src/discord_bot.py:33-44 | for `limit >= 2` and a non-empty text, every chunk but the last consumes at least `limit // 2` characters: `(chunks - 1) * (limit // 2) < len(text)` |
| Chunker.ChunkLoopCount | src/discord_bot.py:33-44 | the same bound for the loop's own chunks, by induction over the iterations |
| Text.LStripChar | src/discord_bot.py:44 | `lstrip("\n")` drops exactly the leading run of newlines |
| Text.RFind | src/discord_bot.py:39 | `rfind("\n", 0, limit)` is the last newline below `limit`, or -1 when there is none |
| Text.Strip | src/opencode_client.py:267 | `strip()` returns the empty string exactly for all-whitespace input, and otherwise a string without whitespace at either end |
| Text.StripSlice | src/opencode_client.py:267 | `strip()` is a slice `s[i:j]` of its input with only whitespace before `i` and from `j` on, so with the clauses of `Strip` it is `s` minus its leading and trailing whitespace |
| Text.StripIdempotent | src/api_server.py:54 | stripping twice is stripping once |
| Text.IntToDecimalRoundTrip | src/opencode_client.py:41 | `int(str(port)) == port` for every integer |
| OpenCodeClient.ExtractText | src/opencode_client.py:254-267 | the loop over `parts` computes the specified text |
| OpenCodeClient.ExtractTextSpec | src/opencode_client.py:262-267 | the extracted text is never empty |
| OpenCodeClient.ExtractTextTrimmed | src/opencode_client.py:267 | the extracted text never starts or ends with whitespace |
| OpenCodeClient.ExtractTextPlaceholder | src/opencode_client.py:267 | the placeholder comes back exactly when the collected texts are all whitespace, no texts included, or when the trimmed text is the placeholder itself |
| OpenCodeClient.NoTextParts | src/opencode_client.py:262-267 | a reply without text parts, including one without `parts`, gives the placeholder |
| OpenCodeClient.SingleTextPart | src/opencode_client.py:264-267 | a reply whose only text part holds `t`, with non-text parts before and after it, gives `t` trimmed, when `t` is not all whitespace |
| OpenCodeClient.TextsOfAppend | src/opencode_client.py:264-266 | the texts are collected in the order of the parts |
| OpenCodeClient.TextsOfSingle | src/opencode_client.py:265-266 | a part contributes its `text` (or `""`) exactly when its type is `"text"` |
| OpenCodeClient.TextsOfEmpty | src/opencode_client.py:264-266 | nothing is collected exactly when no part has type `"text"` |
| OpenCodeClient.JoinAllSpace | src/opencode_client.py:267 | the newline-joined texts are all whitespace exactly when every text is |
| OpenCodeClient.CreateSessionBody | src/opencode_client.py:145-147 | the body has a `title` key, holding the title, exactly when the title is truthy, and no other key |
| OpenCodeClient.CreateSessionBodyRoundTrip | src/opencode_client.py:145-147 | the title read back from the body is the given title, with the falsy ones read as absent |
| OpenCodeClient.MessageBody | src/opencode_client.py:193-199 | the body always holds exactly one part `{type: "text", text: content}`; `model` and `agent` appear exactly when non-empty, with their values, and no other key appears |
| OpenCodeClient.MessageBodyRoundTrip | src/opencode_client.py:216-222 | content, model and agent are recovered from the body, the empty options read as absent |
| OpenCodeClient.ListMessagesParams | src/opencode_client.py:233-235 | `limit` is a parameter exactly when it is not `None`, `0` included |
| OpenCodeClient.ListMessagesParamsRoundTrip | src/opencode_client.py:233-235 | the limit read back from the parameters is the limit given, `None` included |
| OpenCodeClient.Auth | src/opencode_client.py:43-47 | credentials exist exactly when both username and password are non-empty, and carry them |
| OpenCodeClient.BaseUrl | src/opencode_client.py:39-41 | the base URL starts with `http://` |
| OpenCodeClient.BaseUrlRoundTrip | src/opencode_client.py:39-41 | host and port are read back from `http://{hostname}:{port}`, even for a host containing `:` |
| OpenCodeClient.Client.NewSession | src/opencode_client.py:52-56 | a new session is open |
| OpenCodeClient.Client.AfterAccess | src/opencode_client.py:51-57 | after an access to `http` there is an open session, and an open one is reused |
| OpenCodeClient.Client.constructor | src/opencode_client.py:22-33 | a new client has its configuration, no process and no session |
| OpenCodeClient.Client.Http | src/opencode_client.py:49-57 | the property reuses an open session and otherwise opens one for the client's own URL and credentials; the process is untouched |
| OpenCodeClient.Client.WaitHealthy | src/opencode_client.py:90-104 | the loop ends as the specification says, leaves `_http` as one access to `http` would (unchanged when `retries < 1`), and leaves the process alone |
| OpenCodeClient.WaitSpec | src/opencode_client.py:90-104 | `_wait_healthy`'s poll as a value; stated by `WaitHealthyFirst`, `WaitHealthyGivesUp`, `WaitHealthyInterrupted` and `WaitHealthyBounded`, and `Client.WaitHealthy` is proved equal to it |
| OpenCodeClient.WaitFrom | src/opencode_client.py:92-100 | the attempts from a given one on; stated by `WaitFromHealthy`, `WaitFromGaveUp`, `WaitFromInterrupted` and `WaitFromAttempts` |
| OpenCodeClient.WaitCompletion | src/opencode_client.py:97-104 | `_wait_healthy` returns normally exactly when an attempt reported health |
| OpenCodeClient.WaitHealthyFirst | src/opencode_client.py:92-97 | it returns at attempt `k` exactly when `k <= retries`, attempt `k` reports `healthy`, and every earlier attempt failed quietly |
| OpenCodeClient.WaitHealthyGivesUp | src/opencode_client.py:92-104 | it raises the timeout error exactly when all `retries` attempts failed quietly |
| OpenCodeClient.WaitHealthyInterrupted | src/opencode_client.py:93-99 | an exception other than a connection error ends the poll at the attempt that raised it |
| OpenCodeClient.WaitHealthyBounded | src/opencode_client.py:92 | at most `retries` health requests are sent, and at least one when `retries >= 1` |
| OpenCodeClient.WaitFromHealthy | src/opencode_client.py:92-100 | the first-healthy characterization for the attempts from any starting point |
| OpenCodeClient.WaitFromGaveUp | src/opencode_client.py:92-104 | the give-up characterization from any starting attempt |
| OpenCodeClient.WaitFromInterrupted | src/opencode_client.py:93-99 | the interruption characterization from any starting attempt |
| OpenCodeClient.WaitFromAttempts | src/opencode_client.py:92 | an attempt that ends the poll is numbered within the range |
| OpenCodeClient.Client.StartServer | src/opencode_client.py:63-88 | a running server is left as it is; a failed spawn leaves no process; otherwise the process is recorded and the outcome is that of the 30-attempt health poll, the process staying set on failure |
| OpenCodeClient.Client.StopServer | src/opencode_client.py:106-124 | no process means no change; otherwise the process handle is cleared on every path; after a graceful or forced stop there is no open session left, and a failing signal propagates with the session untouched |
| OpenCodeClient.StartStopCycle | src/opencode_client.py:63-124 | one scenario: a fresh client whose server spawns, is healthy at the first poll and exits on `SIGTERM` ends with no process and no session |
| DiscordBot.ShortId | src/discord_bot.py:121 | `sid[:8]` is the first 8 characters, or the whole id when shorter |
| DiscordBot.SessionIdOf | src/discord_bot.py:115 | the id is `id` when that is non-empty, else the value of `ID` when present; it is missing exactly when `id` is missing or empty and `ID` is absent |
| DiscordBot.ChannelAllowedBy | src/discord_bot.py:225-229 | `_channel_allowed` over the allow set; stated by `AllowListMeaning` |
| DiscordBot.Bot.ChannelAllowed | src/discord_bot.py:225-229 | `_channel_allowed` of the bot; stated by `AllowListMeaning` through `ChannelAllowedBy`, and it guards `CmdStart`, `CmdStop`, `CmdStatus` and `OnMessage` |
| DiscordBot.AllowListMeaning | src/discord_bot.py:70 | a bot built without a list, or with an empty one, allows every channel; otherwise it allows exactly the listed names |
| DiscordBot.Chunks | src/discord_bot.py:204-205 | one chunk message per piece, in order |
| DiscordBot.ReplyAnswers | src/discord_bot.py:194-205 | a relayed message always gets an answer: exactly one error message on failure, otherwise at least one chunk, each within 2000 characters |
| DiscordBot.ReplyNotices | src/discord_bot.py:194-205 | what a relay posts; stated by `ReplyAnswers` and `ShortReplyOneChunk`, and `OnMessage` posts exactly it |
| DiscordBot.ShortReplyOneChunk | src/discord_bot.py:204-205 | a reply that fits is posted as one message, unchanged |
| DiscordBot.Bot.constructor | src/discord_bot.py:52-76 | a new bot has the allow-list set, the prefix and an empty registry |
| DiscordBot.Bot.CmdStart | src/discord_bot.py:100-123 | a channel that is not allowed or is already bound is left unchanged; otherwise the session is requested with `title` or `discord-<name>`, a failure binds nothing, and success binds exactly this channel to the returned id, changing no other entry |
| DiscordBot.Bot.CmdStop | src/discord_bot.py:125-141 | the channel's binding is removed and no other; a delete is requested exactly for a real id, and a failed delete restores nothing |
| DiscordBot.Bot.StatusEntries | src/discord_bot.py:153-157 | one line per binding, with the display name and the first 8 characters of the id |
| DiscordBot.Bot.StatusSpec | src/discord_bot.py:143-158 | `!status` as a value: nothing outside the allow list, "no active sessions" for an empty registry, a failure when a binding holds `None`, otherwise the listing; stated by `StatusListsBindings`, `StatusMissingId` and `StatusFromEntries`, and `CmdStatus` is proved equal to it |
| DiscordBot.Bot.CmdStatus | src/discord_bot.py:143-158 | the loop over the registry posts the specified listing |
| DiscordBot.Bot.StatusMissingId | src/discord_bot.py:157 | a binding to `None` makes `!status` fail |
| DiscordBot.Bot.StatusFromEntries | src/discord_bot.py:153-158 | the lines built for every binding are the listing posted |
| DiscordBot.Bot.StatusListsBindings | src/discord_bot.py:149-158 | a non-empty registry is listed exactly, channel by channel |
| DiscordBot.Bot.CleanupSessions | src/discord_bot.py:211-219 | exactly one delete per binding present on entry, carrying its id; the registry always ends empty |
| DiscordBot.Bot.OnMessage | src/discord_bot.py:164-205 | a message is relayed exactly when it passes every filter (author not a bot, text channel, no command prefix, allowed, bound, non-blank), with the stripped text to the bound session; nothing is posted otherwise; a relay posts exactly the chunks of the extracted reply, or one error |
| DiscordBot.Bot.Relays | src/discord_bot.py:169-185 | the six filters of `on_message`; `OnMessage` relays exactly when they hold |
| DiscordBot.Post | src/discord_bot.py:204-205 | posts one chunk per piece, in order |
| DiscordBot.SessionScenario | src/discord_bot.py:100-141 | `!start`, a refused second `!start`, then `!stop` leave the registry empty |
| ApiServer.Authorize | src/api_server.py:35-64 | the health path is always admitted; a rejection is a 401 or a 403 |
| ApiServer.AuthorizeCases | src/api_server.py:45-64 | off the health path: 401 exactly when the `Bearer ` prefix is missing, 403 exactly when the stripped token differs from the secret, admission exactly when it matches |
| ApiServer.EmptySecretStillNeedsBearer | src/api_server.py:45-52 | with an empty secret, a request without a header is still refused with 401 |
| ApiServer.BearerTokenAdmitted | src/api_server.py:54-64 | `Bearer <token>` is admitted exactly when the stripped token is the secret |
| ApiServer.PaddedSecretLocksOut | src/api_server.py:54-61 | a secret with whitespace at either end admits no protected request |
| ApiServer.CanonicalHeader | src/api_server.py:54-55 | `Bearer <secret>` gets in exactly when the secret has no whitespace at either end |
| ApiServer.Validate | src/api_server.py:89-109 | a channel-creation request is made exactly when the bot is ready, the body is an object, and `channel_name` and `prompt` are non-empty strings; it carries those and `category`; otherwise, in this order: 503 when not ready, 400 `Invalid JSON body`, a crash for a non-object, 400 for `channel_name`, 400 for `prompt` |
| ApiServer.ValidationBeforeCreation | src/api_server.py:89-123 | a request that fails validation gets the same answer whatever channel creation would do |
| ApiServer.NotReadyFirst | src/api_server.py:89-91 | a bot that is not ready gets 503 whatever the body |
| ApiServer.ChannelNameBeforePrompt | src/api_server.py:102-104 | a bad `channel_name` gets its 400 whatever the prompt |
| ApiServer.TriggerStatuses | src/api_server.py:86-135 | the handler answers 200, 400, 500 or 503; 200 only with the creation result unchanged; 400 only for a ready bot with a bad body; 503 only when not ready or on a `RuntimeError`; 500 only on another exception from channel creation |
| ApiServer.TriggerSucceeds | src/api_server.py:118-135 | a valid request whose channel is created, with an object result whose `session_id` is absent or sliceable, gets 200 with the result as returned |
| ApiServer.UsualResultSucceeds | src/api_server.py:118-135 | the usual result `{channel_id, channel_name, session_id}` with a string id gets 200 |
| ApiServer.CreationFailures | src/api_server.py:124-128 | a `RuntimeError` from channel creation gives 503 with its message; any other exception gives 500 with `Internal error: ` and the message |
| ApiServer.UnparsableIs400 | src/api_server.py:93-97 | a body that is not JSON gets 400 `Invalid JSON body` once the bot is ready |
| ApiServer.NonObjectCrashes | src/api_server.py:99 | JSON that is not an object makes `body.get` raise |
| ApiServer.BadPromptIs400 | src/api_server.py:105-107 | a good `channel_name` with a missing or bad `prompt` gets 400 for the prompt |
| ApiServer.HandleTrigger | src/api_server.py:86-135 | the handler; its behaviour is stated by `Validate`, `TriggerStatuses`, `TriggerSucceeds`, `CreationFailures`, `UnparsableIs400`, `NonObjectCrashes`, `BadPromptIs400`, `NotReadyFirst`, `ChannelNameBeforePrompt` and `ValidationBeforeCreation` |
| ApiServer.HealthAlwaysAnswers | src/api_server.py:41-43 | `GET /api/health` answers `{"ok": true}` whatever the headers |
| ApiServer.RejectedNeverRouted | src/api_server.py:45-61 | a rejected request is answered 401 or 403 and never reaches a handler |
| ApiServer.AuthenticatedTrigger | src/api_server.py:64-70 | an authenticated `POST /api/trigger` is handled exactly as `_handle_trigger` alone would |
| ApiServer.AdmittedIsRouted | src/api_server.py:63-64 | an admitted request goes to its route |
| ApiServer.TriggerRoute | src/api_server.py:70 | `POST /api/trigger` goes to the trigger handler |
| ApiServer.UnroutedRequests | src/api_server.py:69-70 | an unknown path gets 404; a known path with a method it was not registered for gets 405 |
| ApiServer.Route | src/api_server.py:69-70 | the two routes; stated by `UnroutedRequests`, `TriggerRoute` and `HealthAlwaysAnswers` |
| ApiServer.Serve | src/api_server.py:35-70 | the middleware followed by the routes; stated by `HealthAlwaysAnswers`, `RejectedNeverRouted`, `AdmittedIsRouted` and `AuthenticatedTrigger` |

## Left out

- Discord itself is not modelled: event delivery, `ctx.send`, `typing()`,
  intents and `on_ready`. What would be sent is returned as `Notice` values,
  and the wording and emoji of the messages are not modelled.
- `process_commands` is not modelled. Commands are modelled as separate
  `Bot` methods, and `on_message` is modelled from its filters on.
- The `await` between the "already bound" check and the bind in `cmd_start`
  lets two starts race. Concurrency is outside this sequential model.
- The order of the `!status` lines and of the cleanup deletes is left out.
  Python dicts iterate in insertion order, while the model's registry is a
  `map`. The listing is a map from channel id to line, and the deletes come
  in an unspecified order.
- HTTP, JSON decoding and the subprocess are left out. `create_session`,
  `send_message`, `send_message_async` and `list_messages` are modelled
  through their bodies and parameters only; the request paths are not
  modelled, as they are fixed strings around the session id.
- `list_sessions`, `get_session`, `delete_session`, `abort_session`,
  `get_message` and `health` are not modelled separately: they are fixed
  paths with no logic of their own.
- Sleeps and timeouts are not modelled: the one-second delay between health
  polls, the 10-second grace period and the 120-second request timeout. The
  timeout is recorded as a constant of the session, and the outcome of each
  wait is a parameter.
- Process signalling is not modelled. `SIGTERM`, `kill` and the waits are
  summarised by a `Termination` parameter.
- OpenCodeClient.ExtractText: the model assumes part fields are strings or
  absent. A non-string `text`, a non-dict part or a non-list `parts` makes
  the source raise, and the model does not cover that.
- DiscordBot.Bot.CmdStart: the model assumes the session object's fields are
  strings. A non-string `id` that is truthy would be stored as it is.
- An uncaught exception in the trigger handler becomes a `Crash` outcome,
  which the framework serves as a 500. The wording of that error page and
  of the 404/405 pages is not modelled.
- `create_session_channel` is not part of this model. It is called by the
  trigger handler but is not among the modelled files, so it is the oracle
  `create`.
- `main.py` is not modelled: argument parsing, configuration loading,
  signal handlers and shutdown orchestration. The `start_api_server` setup
  and logging are left out as well.
- Chunker.ChunkMessage: the model requires `limit > 0` unless the text is
  empty. With `limit <= 0` the source's loop is not guaranteed to end
  (`limit == 0` with `"a"` never does) and negative limits slice from the
  end; the only caller passes 2000.
- JSON numbers are integers only. Floats in decoded bodies or results are
  not modelled.
