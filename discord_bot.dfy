/**
 * `OpenCodeBot`: the registry binding Discord channels to OpenCode
 * sessions, the `!start`, `!stop` and `!status` commands that change or
 * show it, the relay of ordinary messages, and the shutdown cleanup. The
 * OpenCode server and Discord are oracles: their answers are parameters,
 * and the messages the bot would post are returned as `Notice`s.
 */
module DiscordBot {
  import opened Wrappers
  import opened Text
  import opened Chunker
  import OpenCodeClient

  /** The channel a message or command arrived in. */
  datatype Channel = Channel(id: int, name: string, isText: bool)

  /** An incoming Discord message. */
  datatype Message = Message(authorIsBot: bool, channel: Channel, content: string)

  /** One line of the `!status` listing: the channel's display name and the short session id. */
  datatype StatusEntry = StatusEntry(channelName: string, shortId: string)

  /** What the bot posts back to the channel. */
  datatype Notice =
    | AlreadyActive                   // `!start` on a bound channel
    | SessionStarted(shortId: string) // `!start` bound a new session
    | NoActiveSession                 // `!stop` on an unbound channel
    | SessionEnded                    // `!stop` unbound the channel
    | NoActiveSessions                // `!status` with an empty registry
    | ActiveSessions(entries: map<int, StatusEntry>)
    | CommandFailed(error: string)    // reported by `on_command_error`
    | RelayFailed(error: string)      // the OpenCode request of a relay raised
    | Chunk(text: string)             // one piece of a relayed reply

  /** The `TypeError` raised by slicing a session id that is `None`. */
  const NoneNotSubscriptable: string := "'NoneType' object is not subscriptable"

  /** `sid[:8]` */
  function ShortId(sid: string): (r: string)
    ensures |r| <= 8 && |r| <= |sid| && r == sid[..|r|]
    ensures |sid| >= 8 ==> |r| == 8
    ensures |sid| < 8 ==> r == sid
  {
    if |sid| <= 8 then sid else sid[..8]
  }

  /** `title or f"discord-{channel.name}"` */
  function SessionTitle(title: string, channelName: string): string {
    if title != "" then title else "discord-" + channelName
  }

  /** `session.get("id") or session.get("ID")` on the session object (string fields only). */
  function SessionIdOf(session: map<string, string>): (r: Option<string>)
    ensures r.None? <==> ("id" !in session || session["id"] == "") && "ID" !in session
    ensures "id" in session && session["id"] != "" ==> r == Some(session["id"])
    ensures !("id" in session && session["id"] != "") && "ID" in session ==> r == Some(session["ID"])
  {
    if "id" in session && session["id"] != "" then Some(session["id"])
    else if "ID" in session then Some(session["ID"])
    else None
  }

  /** The set built from the `allowed_channels` argument (`set(allowed_channels or [])`). */
  function AllowSet(allowed: Option<seq<string>>): set<string> {
    if allowed.Some? then set c | c in allowed.value else {}
  }

  /** `_channel_allowed` over the allow-list set. */
  predicate ChannelAllowedBy(allowed: set<string>, name: string) {
    allowed == {} || name in allowed
  }

  /**
   * A bot built without a list or with an empty one serves every channel;
   * otherwise it serves exactly the channels named in the list.
   */
  lemma AllowListMeaning(allowed: Option<seq<string>>, name: string)
    ensures ChannelAllowedBy(AllowSet(allowed), name)
      <==> allowed.None? || allowed.value == [] || name in allowed.value
  {
    if allowed.Some? && allowed.value != [] {
      assert allowed.value[0] in AllowSet(allowed);
    }
  }

  /** The notices that follow a successful `create_session`. */
  function StartedNotices(sid: Option<string>): seq<Notice> {
    if sid.Some? then [SessionStarted(ShortId(sid.value))] else [CommandFailed(NoneNotSubscriptable)]
  }

  /** The display name of a bound channel: its name if Discord knows it, else `str(ch_id)`. */
  function DisplayName(channelId: int, names: map<int, string>): string {
    if channelId in names then names[channelId] else IntToDecimal(channelId)
  }

  /** The line `!status` shows for one binding. */
  function EntryOf(channelId: int, sid: string, names: map<int, string>): StatusEntry {
    StatusEntry(DisplayName(channelId, names), ShortId(sid))
  }

  /** The reply to a relayed message. */
  function ReplyNotices(reply: Result<OpenCodeClient.Response, string>): seq<Notice> {
    if reply.Failure? then [RelayFailed(reply.error)]
    else Chunks(ChunkMessageSpec(OpenCodeClient.ExtractTextSpec(reply.value), DiscordMaxLen))
  }

  /** One `Chunk` notice per piece, in order. */
  function Chunks(pieces: seq<string>): (r: seq<Notice>)
    ensures |r| == |pieces|
    ensures forall i | 0 <= i < |pieces| :: r[i] == Chunk(pieces[i])
  {
    if pieces == [] then [] else [Chunk(pieces[0])] + Chunks(pieces[1..])
  }

  /**
   * A relayed message is always answered: by exactly one error notice, or by
   * at least one chunk, each within Discord's limit (`Chunker.Reassembly`
   * says how the chunks make up the extracted reply).
   */
  lemma ReplyAnswers(reply: Result<OpenCodeClient.Response, string>)
    ensures var notices := ReplyNotices(reply);
      && |notices| >= 1
      && (reply.Failure? ==> notices == [RelayFailed(reply.error)])
      && (reply.Success? ==> forall i | 0 <= i < |notices| :: notices[i].Chunk? && |notices[i].text| <= DiscordMaxLen)
  {
    if reply.Success? {
      ChunksFit(OpenCodeClient.ExtractTextSpec(reply.value), DiscordMaxLen);
    }
  }

  /** A short reply goes out as a single chunk, unchanged. */
  lemma ShortReplyOneChunk(reply: OpenCodeClient.Response)
    requires |OpenCodeClient.ExtractTextSpec(reply)| <= DiscordMaxLen
    ensures ReplyNotices(Success(reply)) == [Chunk(OpenCodeClient.ExtractTextSpec(reply))]
  {
  }

  /** An `OpenCodeBot`: its configuration and the channel-to-session registry. */
  class Bot {
    const allowedChannels: set<string>
    const commandPrefix: string
    /** `_sessions`: channel id to session id; the id stored may be `None`. */
    var sessions: map<int, Option<string>>

    constructor(allowed: Option<seq<string>>, commandPrefix: string)
      ensures allowedChannels == AllowSet(allowed)
      ensures this.commandPrefix == commandPrefix
      ensures sessions == map[]
    {
      allowedChannels := AllowSet(allowed);
      this.commandPrefix := commandPrefix;
      sessions := map[];
    }

    /** `_channel_allowed(channel)` */
    predicate ChannelAllowed(name: string) {
      ChannelAllowedBy(allowedChannels, name)
    }

    /** The registry holds a usable session id for this channel. */
    predicate BoundTo(channelId: int)
      reads this
    {
      channelId in sessions && sessions[channelId].Some?
    }

    /**
     * `!start [title]`. `created` is the outcome of `create_session`; the
     * title requested from it is returned. A bound channel is left alone;
     * otherwise exactly this channel gets bound, to whatever id came back.
     */
    method CmdStart(channel: Channel, title: string, created: Result<map<string, string>, string>)
      returns (notices: seq<Notice>, requestedTitle: Option<string>)
      modifies this
      ensures !ChannelAllowed(channel.name) ==>
        notices == [] && requestedTitle.None? && sessions == old(sessions)
      ensures ChannelAllowed(channel.name) && channel.id in old(sessions) ==>
        notices == [AlreadyActive] && requestedTitle.None? && sessions == old(sessions)
      ensures ChannelAllowed(channel.name) && channel.id !in old(sessions) ==>
        && requestedTitle == Some(SessionTitle(title, channel.name))
        && (created.Failure? ==> notices == [CommandFailed(created.error)] && sessions == old(sessions))
        && (created.Success? ==>
              && sessions == old(sessions)[channel.id := SessionIdOf(created.value)]
              && notices == StartedNotices(SessionIdOf(created.value)))
    {
      if !ChannelAllowed(channel.name) {
        return [], None;
      }
      if channel.id in sessions {
        return [AlreadyActive], None;
      }
      requestedTitle := Some(SessionTitle(title, channel.name));
      if created.Failure? {
        return [CommandFailed(created.error)], requestedTitle;
      }
      var sid := SessionIdOf(created.value);
      sessions := sessions[channel.id := sid];
      notices := StartedNotices(sid);
    }

    /**
     * `!stop`: the binding is popped whatever it held; a delete is requested
     * (and its failure ignored) only for a real session id.
     */
    method CmdStop(channel: Channel) returns (notices: seq<Notice>, deleted: Option<string>)
      modifies this
      ensures !ChannelAllowed(channel.name) ==>
        notices == [] && deleted.None? && sessions == old(sessions)
      ensures ChannelAllowed(channel.name) ==> sessions == old(sessions) - {channel.id}
      ensures ChannelAllowed(channel.name) ==>
        deleted == (if channel.id in old(sessions) then old(sessions)[channel.id] else None)
      ensures ChannelAllowed(channel.name) ==>
        notices == if deleted.Some? then [SessionEnded] else [NoActiveSession]
    {
      if !ChannelAllowed(channel.name) {
        return [], None;
      }
      deleted := if channel.id in sessions then sessions[channel.id] else None;
      sessions := sessions - {channel.id};
      notices := if deleted.Some? then [SessionEnded] else [NoActiveSession];
    }

    /** The listing `!status` shows for a registry whose ids are all present. */
    function StatusEntries(names: map<int, string>): (entries: map<int, StatusEntry>)
      requires forall k | k in sessions :: sessions[k].Some?
      reads this
      ensures entries.Keys == sessions.Keys
      ensures forall k | k in entries :: entries[k] == EntryOf(k, sessions[k].value, names)
    {
      map k | k in sessions :: EntryOf(k, sessions[k].value, names)
    }

    /** What `!status` posts; `names` is what `get_channel` knows. */
    function StatusSpec(channel: Channel, names: map<int, string>): seq<Notice>
      reads this
    {
      if !ChannelAllowed(channel.name) then []
      else if sessions == map[] then [NoActiveSessions]
      else if exists k | k in sessions :: sessions[k].None? then [CommandFailed(NoneNotSubscriptable)]
      else [ActiveSessions(StatusEntries(names))]
    }

    /** `!status`: one line per binding, built by a loop over the registry. */
    method CmdStatus(channel: Channel, names: map<int, string>) returns (notices: seq<Notice>)
      ensures notices == StatusSpec(channel, names)
    {
      if !ChannelAllowed(channel.name) {
        return [];
      }
      if sessions == map[] {
        return [NoActiveSessions];
      }
      var remaining := sessions.Keys;
      var entries: map<int, StatusEntry> := map[];
      while remaining != {}
        invariant remaining <= sessions.Keys
        invariant entries.Keys == sessions.Keys - remaining
        invariant forall k | k in entries :: sessions[k].Some? && entries[k] == EntryOf(k, sessions[k].value, names)
        decreases |remaining|
      {
        SomeKey(remaining);
        var k :| k in remaining;
        if sessions[k].None? {
          StatusMissingId(channel, names, k);
          return [CommandFailed(NoneNotSubscriptable)];
        }
        entries := entries[k := EntryOf(k, sessions[k].value, names)];
        remaining := remaining - {k};
      }
      StatusFromEntries(channel, names, entries);
      notices := [ActiveSessions(entries)];
    }

    lemma StatusMissingId(channel: Channel, names: map<int, string>, k: int)
      requires ChannelAllowed(channel.name) && k in sessions && sessions[k].None?
      ensures StatusSpec(channel, names) == [CommandFailed(NoneNotSubscriptable)]
    {
    }

    lemma StatusFromEntries(channel: Channel, names: map<int, string>, entries: map<int, StatusEntry>)
      requires ChannelAllowed(channel.name) && sessions != map[]
      requires entries.Keys == sessions.Keys
      requires forall k | k in entries :: sessions[k].Some? && entries[k] == EntryOf(k, sessions[k].value, names)
      ensures StatusSpec(channel, names) == [ActiveSessions(entries)]
    {
      assert forall k | k in sessions :: sessions[k].Some?;
      assert entries == StatusEntries(names);
    }

    /** `!status` lists exactly the bound channels, each with the first 8 characters of its id. */
    lemma StatusListsBindings(channel: Channel, names: map<int, string>)
      requires ChannelAllowed(channel.name)
      requires sessions != map[] && forall k | k in sessions :: sessions[k].Some?
      ensures var notices := StatusSpec(channel, names);
        && |notices| == 1 && notices[0].ActiveSessions?
        && notices[0].entries.Keys == sessions.Keys
        && forall k | k in sessions ::
             notices[0].entries[k] == StatusEntry(DisplayName(k, names), ShortId(sessions[k].value))
    {
    }

    /**
     * `cleanup_sessions`: one delete per binding present on entry (failures
     * are swallowed), then the registry is emptied. `deletes` lists the
     * channel and id of every delete, each channel once.
     */
    method CleanupSessions() returns (deletes: seq<(int, Option<string>)>)
      modifies this
      ensures sessions == map[]
      ensures |deletes| == |old(sessions)|
      ensures forall i | 0 <= i < |deletes| ::
        deletes[i].0 in old(sessions) && deletes[i].1 == old(sessions)[deletes[i].0]
      ensures forall i, j | 0 <= i < j < |deletes| :: deletes[i].0 != deletes[j].0
      ensures forall k | k in old(sessions) :: (k, old(sessions)[k]) in deletes
    {
      var pending := sessions.Keys;
      deletes := [];
      while pending != {}
        invariant pending <= sessions.Keys && sessions == old(sessions)
        invariant |deletes| + |pending| == |sessions.Keys|
        invariant forall i | 0 <= i < |deletes| ::
          deletes[i].0 in sessions.Keys - pending && deletes[i].1 == sessions[deletes[i].0]
        invariant forall i, j | 0 <= i < j < |deletes| :: deletes[i].0 != deletes[j].0
        invariant forall k | k in sessions.Keys - pending :: (k, sessions[k]) in deletes
        decreases |pending|
      {
        SomeKey(pending);
        var k :| k in pending;
        deletes := deletes + [(k, sessions[k])];
        pending := pending - {k};
      }
      assert sessions.Keys - pending == sessions.Keys;
      sessions := map[];
    }

    /** The checks `on_message` makes before relaying, in the source's order. */
    predicate Relays(msg: Message)
      reads this
    {
      && !msg.authorIsBot
      && msg.channel.isText
      && !StartsWith(msg.content, commandPrefix)
      && ChannelAllowed(msg.channel.name)
      && BoundTo(msg.channel.id)
      && Strip(msg.content) != ""
    }

    /**
     * `on_message` after command processing. `reply` is the outcome of
     * `send_message` followed by `extract_text`; `relayed` is the session and
     * text sent, when anything is sent. The registry is only read.
     */
    method OnMessage(msg: Message, reply: Result<OpenCodeClient.Response, string>)
      returns (notices: seq<Notice>, relayed: Option<(string, string)>)
      ensures relayed.Some? <==> Relays(msg)
      ensures relayed.Some? ==>
        relayed.value == (sessions[msg.channel.id].value, Strip(msg.content))
      ensures !Relays(msg) ==> notices == []
      ensures Relays(msg) ==> notices == ReplyNotices(reply)
    {
      if msg.authorIsBot || !msg.channel.isText || StartsWith(msg.content, commandPrefix)
         || !ChannelAllowed(msg.channel.name) {
        return [], None;
      }
      var sid := if msg.channel.id in sessions then sessions[msg.channel.id] else None;
      if sid.None? {
        return [], None;
      }
      var userText := Strip(msg.content);
      if userText == "" {
        return [], None;
      }
      relayed := Some((sid.value, userText));
      if reply.Failure? {
        return [RelayFailed(reply.error)], relayed;
      }
      var replyText := OpenCodeClient.ExtractText(reply.value);
      var pieces := ChunkMessage(replyText, DiscordMaxLen);
      notices := Post(pieces);
    }
  }

  /** `for chunk in chunk_message(reply_text): await message.channel.send(chunk)` */
  method Post(pieces: seq<string>) returns (notices: seq<Notice>)
    ensures notices == Chunks(pieces)
  {
    notices := [];
    var i := 0;
    while i < |pieces|
      invariant 0 <= i <= |pieces|
      invariant notices == Chunks(pieces[..i])
    {
      ChunksSnoc(pieces[..i], pieces[i]);
      assert pieces[..i + 1] == pieces[..i] + [pieces[i]];
      notices := notices + [Chunk(pieces[i])];
      i := i + 1;
    }
    assert pieces[..i] == pieces;
  }

  /** A non-empty set of channel ids has an element. */
  lemma SomeKey(s: set<int>)
    requires s != {}
    ensures exists x :: x in s
  {
    if forall x :: x !in s {
      assert false;
    }
  }

  lemma ChunksSnoc(pieces: seq<string>, p: string)
    ensures Chunks(pieces + [p]) == Chunks(pieces) + [Chunk(p)]
  {
  }

  /**
   * A session's life from `!start` to `!stop` in an unrestricted bot: a
   * second `!start` is refused and the registry ends empty.
   */
  method SessionScenario() returns (bot: Bot)
    ensures bot.sessions == map[]
  {
    bot := new Bot(None, "!");
    var general := Channel(7, "general", true);
    assert bot.ChannelAllowed(general.name);
    assert SessionTitle("", "general") == "discord-general";
    var started, title := bot.CmdStart(general, "", Success(map["id" := "ses_0123456789"]));
    assert title == Some("discord-general");
    assert ShortId("ses_0123456789") == "ses_0123";
    assert started == [SessionStarted("ses_0123")];
    assert bot.sessions == map[7 := Some("ses_0123456789")];
    var again, _ := bot.CmdStart(general, "other", Success(map["id" := "ses_x"]));
    assert again == [AlreadyActive];
    var stopped, deleted := bot.CmdStop(general);
    assert deleted == Some("ses_0123456789") && stopped == [SessionEnded];
  }
}
