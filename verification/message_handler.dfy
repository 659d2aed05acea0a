/**
 * The command dispatcher (handlers/message.py, `handle(ws, message)`): one `match` on
 * the frame's "cmd" that maps the session's username, the decoded frame and the
 * store to a reply and a new store. The clock and the id generator are inputs
 * (`now`, `freshId`).
 */
module MessageHandler {
  import opened Wrappers
  import opened Text
  import opened Channels
  import opened Users

  /**
   * A decoded frame: either not a JSON object (only its Python type name matters) or an
   * object whose fields the dispatcher reads; an absent key is `None`.
   */
  datatype Frame =
    | NonDict(typeName: string)
    | Dict(cmd: Option<string>, channel: Option<string>, content: Option<string>,
           id: Option<string>, limit: Option<int>)

  /** The reply dicts `handle` builds, by their "cmd". */
  datatype Reply =
    | Error(val: string)
    | Pong
    | MessageNew(message: Message, channel: string)
    | MessageEdit(id: string, content: string, channel: string)
    | MessageDelete(id: string, channel: string)
    | ChannelsGet(channels: seq<Channel>)
    | MessagesGet(channel: string, messages: seq<Message>)
  {
    /** Replies that carry `"global": True` and go to every client. */
    predicate IsGlobal() {
      MessageNew? || MessageEdit? || MessageDelete?
    }
  }

  /** The channel index, the message logs and the user map, as one value. */
  datatype Store = Store(index: seq<Channel>, logs: Logs, users: UserMap)

  datatype Outcome = Outcome(reply: Reply, store: Store)

  /** Python truthiness of an optional string: present and not empty. */
  predicate Given(field: Option<string>) {
    field.Some? && field.value != ""
  }

  /** `users.get_user_roles(getattr(ws, 'username', None))`; no user is stored under `None`. */
  function SessionRoles(users: UserMap, username: Option<string>): seq<string> {
    if username.Some? then GetUserRoles(users, username.value) else []
  }

  /** `[c["name"] for c in channels if c.get("type") == "text"]` */
  function TextChannelNames(channels: seq<Channel>): (names: seq<string>)
    ensures forall n :: n in names <==> exists c :: c in channels && c.kind == "text" && c.name == n
  {
    if |channels| == 0 then []
    else
      var rest := TextChannelNames(channels[1..]);
      assert forall c :: c in channels[1..] ==> c in channels;
      assert forall c :: c in channels && c != channels[0] ==> c in channels[1..];
      (if channels[0].kind == "text" then [channels[0].name] else []) + rest
  }

  /** The message `message_new` stores. */
  function NewMessage(user: string, content: string, now: int, freshId: string): Message {
    Message(user, content, now, "message", false, freshId)
  }

  /** `case "message_new"` */
  function HandleMessageNew(username: Option<string>, channel: Option<string>, content: Option<string>,
                            store: Store, now: int, freshId: string): (out: Outcome)
    ensures out.store.index == store.index && out.store.users == store.users
    ensures out.reply.Error? ==> out.store == store
    ensures out.reply.MessageNew? || out.reply.Error?
    ensures out.reply.MessageNew? ==>
              (out.reply.message.id == freshId
               && out.store.logs == AppendMessage(store.logs, out.reply.channel, out.reply.message))
  {
    if !Given(channel) || !Given(content) || !Given(username) then
      Outcome(Error("Invalid chat message format"), store)
    else
      var text := Strip(content.value);
      if text == "" then Outcome(Error("Message content cannot be empty"), store)
      else
        var roles := GetUserRoles(store.users, username.value);
        if roles == [] then Outcome(Error("User roles not found"), store)
        else if !DoesUserHavePermission(store.index, channel.value, roles, "send") then
          Outcome(Error("You do not have permission to send messages in this channel"), store)
        else
          var m := NewMessage(username.value, text, now, freshId);
          Outcome(MessageNew(m, channel.value), store.(logs := AppendMessage(store.logs, channel.value, m)))
  }

  /** `case "message_edit"`: no authorship or capability check, content kept unstripped. */
  function HandleMessageEdit(id: Option<string>, channel: Option<string>, content: Option<string>,
                             store: Store): (out: Outcome)
    ensures out.store.index == store.index && out.store.users == store.users
    ensures out.reply.Error? ==> out.store == store
    ensures out.reply.MessageEdit? || out.reply.Error?
    ensures out.reply.MessageEdit? ==>
      EditInLogs(store.logs, out.reply.channel, out.reply.id, out.reply.content) == Some(out.store.logs)
  {
    if !Given(id) || !Given(channel) || !Given(content) then
      Outcome(Error("Invalid message edit format"), store)
    else
      match EditInLogs(store.logs, channel.value, id.value, content.value)
      case None => Outcome(Error("Failed to edit message"), store)
      case Some(logs) => Outcome(MessageEdit(id.value, content.value, channel.value), store.(logs := logs))
  }

  /** `case "message_delete"`: existence first, then roles, then authorship or "delete_others". */
  function HandleMessageDelete(username: Option<string>, id: Option<string>, channel: Option<string>,
                               store: Store): (out: Outcome)
    ensures out.store.index == store.index && out.store.users == store.users
    ensures out.reply.Error? ==> out.store == store
    ensures out.reply.MessageDelete? || out.reply.Error?
    ensures out.reply.MessageDelete? ==> DeleteInLogs(store.logs, out.reply.channel, out.reply.id) == Some(out.store.logs)
  {
    if !Given(id) || !Given(channel) then Outcome(Error("Invalid message delete format"), store)
    else
      match GetChannelMessage(store.logs, channel.value, id.value)
      case None => Outcome(Error("Message not found or cannot be deleted"), store)
      case Some(m) =>
        var roles := SessionRoles(store.users, username);
        if roles == [] then Outcome(Error("User roles not found"), store)
        else if !Given(username) then Outcome(Error("User not authenticated"), store)
        else if m.user != username.value
             && !DoesUserHavePermission(store.index, channel.value, roles, "delete_others") then
          Outcome(Error("You do not have permission to delete this message"), store)
        else
          match DeleteInLogs(store.logs, channel.value, id.value)
          case None => Outcome(Error("Failed to delete message"), store)
          case Some(logs) => Outcome(MessageDelete(id.value, channel.value), store.(logs := logs))
  }

  /** `case "channels_get"` */
  function HandleChannelsGet(username: Option<string>, store: Store): (out: Outcome)
    ensures out.store == store
    ensures out.reply.ChannelsGet? || out.reply.Error?
  {
    if !Given(username) then Outcome(Error("User not authenticated"), store)
    else
      match GetUser(store.users, username.value)
      case None => Outcome(Error("User not found"), store)
      case Some(u) =>
        if !u.IsTruthy() then Outcome(Error("User not found"), store)
        else Outcome(ChannelsGet(GetAllChannelsForRoles(store.index, u.Roles())), store)
  }

  /** The channels a user may read: the names of the visible channels of type "text". */
  function ReadableChannels(store: Store, u: User): seq<string> {
    TextChannelNames(GetAllChannelsForRoles(store.index, u.Roles()))
  }

  /** `case "messages_get"`: the limit defaults to 100. */
  function HandleMessagesGet(username: Option<string>, channel: Option<string>, limit: Option<int>,
                             store: Store): (out: Outcome)
    ensures out.store == store
    ensures out.reply.MessagesGet? || out.reply.Error?
  {
    if !Given(channel) then Outcome(Error("Invalid channel name"), store)
    else if !Given(username) then Outcome(Error("User not authenticated"), store)
    else
      match GetUser(store.users, username.value)
      case None => Outcome(Error("User not found"), store)
      case Some(u) =>
        if !u.IsTruthy() then Outcome(Error("User not found"), store)
        else if channel.value !in ReadableChannels(store, u) then
          Outcome(Error("Access denied to this channel"), store)
        else
          var n := if limit.Some? then limit.value else 100;
          Outcome(MessagesGet(channel.value, GetChannelMessages(store.logs, channel.value, n)), store)
  }

  /** `f"{message.get('cmd')}"`: a missing command prints as "None". */
  function CmdText(cmd: Option<string>): string {
    if cmd.Some? then cmd.value else "None"
  }

  /**
   * `handle`. Only the index-preserving message commands change the store, and only
   * when they succeed; the channel index and the user map are never written.
   */
  function Handle(username: Option<string>, frame: Frame, store: Store, now: int, freshId: string): (out: Outcome)
    ensures out.store.index == store.index && out.store.users == store.users
    ensures out.reply.Error? ==> out.store == store
    ensures out.store != store ==> out.reply.IsGlobal()
    ensures frame.NonDict? ==> out.reply.Error?
    ensures out.reply.MessageNew? ==>
              (out.reply.message.id == freshId
               && out.store.logs == AppendMessage(store.logs, out.reply.channel, out.reply.message))
    ensures out.reply.MessageEdit? ==>
      EditInLogs(store.logs, out.reply.channel, out.reply.id, out.reply.content) == Some(out.store.logs)
    ensures out.reply.MessageDelete? ==> DeleteInLogs(store.logs, out.reply.channel, out.reply.id) == Some(out.store.logs)
  {
    match frame
    case NonDict(typeName) =>
      Outcome(Error("Invalid message format: expected a dictionary, got " + typeName), store)
    case Dict(cmd, channel, content, id, limit) =>
      if cmd == Some("ping") then Outcome(Pong, store)
      else if cmd == Some("message_new") then HandleMessageNew(username, channel, content, store, now, freshId)
      else if cmd == Some("message_edit") then HandleMessageEdit(id, channel, content, store)
      else if cmd == Some("message_delete") then HandleMessageDelete(username, id, channel, store)
      else if cmd == Some("channels_get") then HandleChannelsGet(username, store)
      else if cmd == Some("messages_get") then HandleMessagesGet(username, channel, limit, store)
      else Outcome(Error("Unknown command: " + CmdText(cmd)), store)
  }

  /** A frame that asks for a command by name, with all other fields given. */
  function Command(cmd: string, channel: Option<string>, content: Option<string>, id: Option<string>): Frame {
    Dict(Some(cmd), channel, content, id, None)
  }

  /** `ping` answers `pong` and leaves the store alone, whoever asks. */
  lemma PingIsPong(username: Option<string>, frame: Frame, store: Store, now: int, freshId: string)
    requires frame.Dict? && frame.cmd == Some("ping")
    ensures Handle(username, frame, store, now, freshId) == Outcome(Pong, store)
  {
  }

  /** A frame that is not an object gets the format error naming its type, and nothing changes. */
  lemma NonDictIsError(username: Option<string>, typeName: string, store: Store, now: int, freshId: string)
    ensures Handle(username, NonDict(typeName), store, now, freshId)
      == Outcome(Error("Invalid message format: expected a dictionary, got " + typeName), store)
  {
  }

  /** An unknown command echoes its tag in the error and changes nothing. */
  lemma UnknownCommandEchoes(username: Option<string>, frame: Frame, store: Store, now: int, freshId: string)
    requires frame.Dict?
    requires frame.cmd !in {Some("ping"), Some("message_new"), Some("message_edit"), Some("message_delete"),
                            Some("channels_get"), Some("messages_get")}
    ensures Handle(username, frame, store, now, freshId)
      == Outcome(Error("Unknown command: " + CmdText(frame.cmd)), store)
  {
  }

  /** `handle` sends a `message_new` frame to its branch, whatever its `id` and `limit` fields. */
  lemma MessageNewDispatch(username: Option<string>, channel: Option<string>, content: Option<string>,
                           id: Option<string>, limit: Option<int>, store: Store, now: int, freshId: string)
    ensures Handle(username, Dict(Some("message_new"), channel, content, id, limit), store, now, freshId)
      == HandleMessageNew(username, channel, content, store, now, freshId)
  {
  }

  /** The `message_new` branch alone: when it stores, and what it stores. */
  lemma MessageNewBranch(username: Option<string>, channel: Option<string>, content: Option<string>,
                         store: Store, now: int, freshId: string)
    ensures var out := HandleMessageNew(username, channel, content, store, now, freshId);
      && (out.reply.MessageNew? <==>
            && Given(channel) && Given(content) && Given(username)
            && (exists k :: 0 <= k < |content.value| && !IsSpace(content.value[k]))
            && GetUserRoles(store.users, username.value) != []
            && DoesUserHavePermission(store.index, channel.value, GetUserRoles(store.users, username.value), "send"))
      && (!out.reply.MessageNew? ==> out.reply.Error? && out.store == store)
      && (out.reply.MessageNew? ==>
            && out.reply.channel == channel.value
            && out.reply.message == Message(username.value, Strip(content.value), now, "message", false, freshId)
            && out.store.logs == AppendMessage(store.logs, channel.value, out.reply.message))
  {
    if Given(content) {
      StripEmptyIff(content.value);
    }
  }

  /**
   * `message_new` succeeds exactly when every check passes: the three fields are given, the
   * content is not all whitespace, the user has roles, and the roles carry "send" on the
   * channel. Then the stripped message is appended to that channel only.
   */
  lemma MessageNewSpec(username: Option<string>, channel: Option<string>, content: Option<string>,
                       id: Option<string>, limit: Option<int>, store: Store, now: int, freshId: string)
    ensures var out := Handle(username, Dict(Some("message_new"), channel, content, id, limit), store, now, freshId);
      && (out.reply.MessageNew? <==>
            && Given(channel) && Given(content) && Given(username)
            && (exists k :: 0 <= k < |content.value| && !IsSpace(content.value[k]))
            && GetUserRoles(store.users, username.value) != []
            && DoesUserHavePermission(store.index, channel.value, GetUserRoles(store.users, username.value), "send"))
      && (!out.reply.MessageNew? ==> out.reply.Error? && out.store == store)
      && (out.reply.MessageNew? ==>
            && out.reply.channel == channel.value
            && out.reply.message == Message(username.value, Strip(content.value), now, "message", false, freshId)
            && out.reply.IsGlobal()
            && out.store.logs[channel.value] == LogOf(store.logs, channel.value) + [out.reply.message]
            && forall c :: c in store.logs && c != channel.value ==> out.store.logs[c] == store.logs[c])
  {
    MessageNewDispatch(username, channel, content, id, limit, store, now, freshId);
    MessageNewBranch(username, channel, content, store, now, freshId);
  }

  /** A stored message's content is already stripped and never empty. */
  lemma MessageNewContentStripped(username: Option<string>, channel: Option<string>, content: Option<string>,
                                  id: Option<string>, limit: Option<int>, store: Store, now: int, freshId: string)
    requires Handle(username, Dict(Some("message_new"), channel, content, id, limit), store, now, freshId).reply.MessageNew?
    ensures var m := Handle(username, Dict(Some("message_new"), channel, content, id, limit), store, now, freshId).reply.message;
      m.content != "" && Strip(m.content) == m.content && !IsSpace(m.content[0])
  {
    MessageNewDispatch(username, channel, content, id, limit, store, now, freshId);
    MessageNewBranch(username, channel, content, store, now, freshId);
    var out := HandleMessageNew(username, channel, content, store, now, freshId);
    assert out.reply.message.content == Strip(content.value);
    StripIdempotent(content.value);
  }

  /** `handle` sends a `messages_get` frame to its branch, whatever its `content` and `id` fields. */
  lemma MessagesGetDispatch(username: Option<string>, channel: Option<string>, content: Option<string>,
                            id: Option<string>, limit: Option<int>, store: Store, now: int, freshId: string)
    ensures Handle(username, Dict(Some("messages_get"), channel, content, id, limit), store, now, freshId)
      == HandleMessagesGet(username, channel, limit, store)
  {
    // The earlier cases differ from "messages_get" in length or at position 0 or 7.
    assert "messages_get"[7] == 's' && "messages_get"[0] == 'm';
    assert "message_new"[7] == '_' && "message_edit"[7] == '_' && "message_delete"[7] == '_';
    assert "channels_get"[0] == 'c';
  }

  /** The `messages_get` branch with limit 1 for a reader of the channel answers with its last message. */
  lemma ReadLastBranch(username: string, channel: string, store: Store, m: Message)
    requires username in store.users && store.users[username].IsTruthy()
    requires channel in ReadableChannels(store, store.users[username])
    requires username != "" && channel != ""
    requires GetChannelMessages(store.logs, channel, 1) == [m]
    ensures HandleMessagesGet(Some(username), Some(channel), Some(1), store) == Outcome(MessagesGet(channel, [m]), store)
  {
  }

  /** Reading the last message of a channel just written to gives that message. */
  lemma LastAfterSave(username: string, channel: string, store: Store, m: Message, now: int, freshId: string)
    requires username in store.users && store.users[username].IsTruthy()
    requires channel in ReadableChannels(store, store.users[username])
    requires username != "" && channel != ""
    ensures var after := store.(logs := AppendMessage(store.logs, channel, m));
      Handle(Some(username), Dict(Some("messages_get"), Some(channel), None, None, Some(1)), after, now, freshId)
        == Outcome(MessagesGet(channel, [m]), after)
  {
    var after := store.(logs := AppendMessage(store.logs, channel, m));
    var u := store.users[username];
    SaveThenGetLast(store.logs, channel, m);
    assert ReadableChannels(after, u) == ReadableChannels(store, u) by {
      assert after.index == store.index;
    }
    ReadLastBranch(username, channel, after, m);
    MessagesGetDispatch(Some(username), Some(channel), None, None, Some(1), after, now, freshId);
  }

  /**
   * Sending and then listing the last message gives back exactly the stored record,
   * for a sender who may both send and read the channel.
   */
  lemma NewThenGetLast(username: string, channel: string, content: string, store: Store, now: int, freshId: string)
    requires Handle(Some(username), Command("message_new", Some(channel), Some(content), None), store, now, freshId).reply.MessageNew?
    requires username in store.users && store.users[username].IsTruthy()
    requires channel in ReadableChannels(store, store.users[username])
    ensures var out := Handle(Some(username), Command("message_new", Some(channel), Some(content), None), store, now, freshId);
      Handle(Some(username), Dict(Some("messages_get"), Some(channel), None, None, Some(1)), out.store, now, freshId)
        == Outcome(MessagesGet(channel, [out.reply.message]), out.store)
  {
    var out := Handle(Some(username), Command("message_new", Some(channel), Some(content), None), store, now, freshId);
    assert out == HandleMessageNew(Some(username), Some(channel), Some(content), store, now, freshId);
    assert out.reply.channel == channel;
    LastAfterSave(username, channel, store, out.reply.message, now, freshId);
    assert out.store == store.(logs := AppendMessage(store.logs, channel, out.reply.message));
  }

  /** A user whose roles lack "send" on the channel gets an error and nothing is stored. */
  lemma SendWithoutCapabilityRefused(username: string, channel: string, content: string, id: Option<string>,
                                     limit: Option<int>, store: Store, now: int, freshId: string)
    requires !DoesUserHavePermission(store.index, channel, GetUserRoles(store.users, username), "send")
    ensures var out := Handle(Some(username), Dict(Some("message_new"), Some(channel), Some(content), id, limit),
                              store, now, freshId);
      out.reply.Error? && out.store == store
  {
    MessageNewDispatch(Some(username), Some(channel), Some(content), id, limit, store, now, freshId);
  }

  /**
   * `message_edit` checks neither authorship nor capability: its outcome does not depend
   * on who asks, and it succeeds exactly when the store edit does.
   */
  lemma EditIgnoresRequester(u1: Option<string>, u2: Option<string>, id: Option<string>, channel: Option<string>,
                             content: Option<string>, limit: Option<int>, store: Store, now: int, freshId: string)
    ensures var f := Dict(Some("message_edit"), channel, content, id, limit);
      Handle(u1, f, store, now, freshId) == Handle(u2, f, store, now, freshId)
    ensures var out := Handle(u1, Dict(Some("message_edit"), channel, content, id, limit), store, now, freshId);
      out.reply.MessageEdit? <==>
        Given(id) && Given(channel) && Given(content) && EditInLogs(store.logs, channel.value, id.value, content.value).Some?
    ensures var out := Handle(u1, Dict(Some("message_edit"), channel, content, id, limit), store, now, freshId);
      out.reply.MessageEdit? ==>
        (out.reply == MessageEdit(id.value, content.value, channel.value) && out.reply.IsGlobal()
         && out.store.logs == EditInLogs(store.logs, channel.value, id.value, content.value).value)
    ensures var out := Handle(u1, Dict(Some("message_edit"), channel, content, id, limit), store, now, freshId);
      !out.reply.MessageEdit? ==> out.reply.Error? && out.store == store
  {
    MessageEditDispatch(u1, channel, content, id, limit, store, now, freshId);
    MessageEditDispatch(u2, channel, content, id, limit, store, now, freshId);
  }

  /** `case "message_edit"` of `handle` hands the frame's fields to the edit branch, whatever its `limit`. */
  lemma MessageEditDispatch(username: Option<string>, channel: Option<string>, content: Option<string>,
                            id: Option<string>, limit: Option<int>, store: Store, now: int, freshId: string)
    ensures Handle(username, Dict(Some("message_edit"), channel, content, id, limit), store, now, freshId)
      == HandleMessageEdit(id, channel, content, store)
  {
  }

  /** The edit path can leave a message whose content is blank, which `message_new` never stores. */
  lemma EditCanBlankContent(store: Store, now: int, freshId: string)
    requires store.logs == map["general" := [Message("alice", "hi", 0, "message", false, "m1")]]
    ensures var out := Handle(None, Command("message_edit", Some("general"), Some("  "), Some("m1")), store, now, freshId);
      out.reply.MessageEdit? && out.store.logs["general"][0].content == "  " && Strip("  ") == ""
  {
    EditFirstMessage(store.logs["general"], "m1", "  ");
    MessageEditDispatch(None, Some("general"), Some("  "), Some("m1"), None, store, now, freshId);
    assert Strip("  ") == "" by {
      assert IsSpace(' ');
      StripEmptyIff("  ");
    }
  }

  /** `handle` sends a `message_delete` frame to its branch, whatever its `content` and `limit` fields. */
  lemma MessageDeleteDispatch(username: Option<string>, channel: Option<string>, content: Option<string>,
                              id: Option<string>, limit: Option<int>, store: Store, now: int, freshId: string)
    ensures Handle(username, Dict(Some("message_delete"), channel, content, id, limit), store, now, freshId)
      == HandleMessageDelete(username, id, channel, store)
  {
  }

  /** Deleting an id the channel does not hold answers "not found" before any role check. */
  lemma DeleteMissingIsNotFound(username: Option<string>, id: string, channel: string, content: Option<string>,
                                limit: Option<int>, store: Store, now: int, freshId: string)
    requires id != "" && channel != ""
    requires GetChannelMessage(store.logs, channel, id).None?
    ensures Handle(username, Dict(Some("message_delete"), Some(channel), content, Some(id), limit), store, now, freshId)
      == Outcome(Error("Message not found or cannot be deleted"), store)
  {
    MessageDeleteDispatch(username, Some(channel), content, Some(id), limit, store, now, freshId);
  }

  /** The `message_delete` branch alone: who may delete, and what a deletion does. */
  lemma DeleteBranchAuthorization(username: string, id: string, channel: string, store: Store)
    requires id != "" && channel != "" && username != ""
    requires GetChannelMessage(store.logs, channel, id).Some?
    ensures var out := HandleMessageDelete(Some(username), Some(id), Some(channel), store);
      var roles := GetUserRoles(store.users, username);
      var author := GetChannelMessage(store.logs, channel, id).value.user;
      && (out.reply.MessageDelete? <==>
            roles != [] && (author == username || DoesUserHavePermission(store.index, channel, roles, "delete_others")))
      && (out.reply.MessageDelete? ==>
            && out.reply == MessageDelete(id, channel) && out.reply.IsGlobal()
            && out.store.logs == store.logs[channel := DeleteFromLog(store.logs[channel], id)])
      && (!out.reply.MessageDelete? ==> out.reply.Error? && out.store == store)
  {
    assert SessionRoles(store.users, Some(username)) == GetUserRoles(store.users, username);
    assert channel in store.logs;
  }

  /**
   * Who may delete: a user with roles deletes their own message without "delete_others";
   * anyone else needs "delete_others"; a user without roles is refused even as author.
   * On success the log loses exactly the messages with that id.
   */
  lemma DeleteAuthorization(username: string, id: string, channel: string, content: Option<string>,
                            limit: Option<int>, store: Store, now: int, freshId: string)
    requires id != "" && channel != "" && username != ""
    requires GetChannelMessage(store.logs, channel, id).Some?
    ensures var out := Handle(Some(username), Dict(Some("message_delete"), Some(channel), content, Some(id), limit),
                              store, now, freshId);
      var roles := GetUserRoles(store.users, username);
      var author := GetChannelMessage(store.logs, channel, id).value.user;
      && (out.reply.MessageDelete? <==>
            roles != [] && (author == username || DoesUserHavePermission(store.index, channel, roles, "delete_others")))
      && (out.reply.MessageDelete? ==>
            && out.reply == MessageDelete(id, channel) && out.reply.IsGlobal()
            && out.store.logs == store.logs[channel := DeleteFromLog(store.logs[channel], id)])
      && (!out.reply.MessageDelete? ==> out.reply.Error? && out.store == store)
  {
    MessageDeleteDispatch(Some(username), Some(channel), content, Some(id), limit, store, now, freshId);
    DeleteBranchAuthorization(username, id, channel, store);
  }

  /**
   * `messages_get` answers exactly when the channel is among the caller's readable text
   * channels, with the last `limit` messages (100 when absent); it never changes the store.
   */
  lemma MessagesGetSpec(username: Option<string>, channel: Option<string>, content: Option<string>,
                        id: Option<string>, limit: Option<int>, store: Store, now: int, freshId: string)
    ensures var out := Handle(username, Dict(Some("messages_get"), channel, content, id, limit), store, now, freshId);
      && out.store == store
      && (out.reply.MessagesGet? <==>
            && Given(channel) && Given(username)
            && username.value in store.users && store.users[username.value].IsTruthy()
            && channel.value in ReadableChannels(store, store.users[username.value]))
      && (out.reply.MessagesGet? ==>
            && out.reply.channel == channel.value
            && out.reply.messages == GetChannelMessages(store.logs, channel.value, if limit.Some? then limit.value else 100))
      && (!out.reply.MessagesGet? ==> out.reply.Error?)
  {
    MessagesGetDispatch(username, channel, content, id, limit, store, now, freshId);
  }

  /** `handle` sends a `channels_get` frame to its branch, whatever its other fields. */
  lemma ChannelsGetDispatch(username: Option<string>, channel: Option<string>, content: Option<string>,
                            id: Option<string>, limit: Option<int>, store: Store, now: int, freshId: string)
    ensures Handle(username, Dict(Some("channels_get"), channel, content, id, limit), store, now, freshId)
      == HandleChannelsGet(username, store)
  {
  }

  /**
   * `channels_get` answers exactly when the session has a username whose record exists and
   * is not empty, with the channels whose "view" roles meet the user's roles, in index
   * order; it never changes the store.
   */
  lemma ChannelsGetSpec(username: Option<string>, channel: Option<string>, content: Option<string>,
                        id: Option<string>, limit: Option<int>, store: Store, now: int, freshId: string)
    ensures var out := Handle(username, Dict(Some("channels_get"), channel, content, id, limit), store, now, freshId);
      && out.store == store
      && (out.reply.ChannelsGet? <==>
            Given(username) && username.value in store.users && store.users[username.value].IsTruthy())
      && (out.reply.ChannelsGet? ==>
            out.reply.channels == GetAllChannelsForRoles(store.index, store.users[username.value].Roles()))
      && (!out.reply.ChannelsGet? ==> out.reply.Error?)
  {
    ChannelsGetDispatch(username, channel, content, id, limit, store, now, freshId);
    if Given(username) && username.value in store.users {
      assert GetUser(store.users, username.value) == Some(store.users[username.value]);
    }
  }

  /** The ids in every log are unique. */
  predicate AllUnique(logs: Logs) {
    forall c :: c in logs ==> UniqueIds(logs[c])
  }

  /** No stored message carries this id. */
  predicate FreshId(logs: Logs, id: string) {
    forall c :: c in logs ==> forall j :: 0 <= j < |logs[c]| ==> logs[c][j].id != id
  }

  /** With a fresh id for each new message, every command keeps message ids unique per channel. */
  lemma HandleKeepsIdsUnique(username: Option<string>, frame: Frame, store: Store, now: int, freshId: string)
    requires AllUnique(store.logs) && FreshId(store.logs, freshId)
    ensures AllUnique(Handle(username, frame, store, now, freshId).store.logs)
  {
    var out := Handle(username, frame, store, now, freshId);
    var r := out.reply;
    if r.MessageNew? {
      AppendKeepsUnique(LogOf(store.logs, r.channel), r.message);
    } else if r.MessageEdit? {
      EditKeepsIds(store.logs[r.channel], r.id, r.content);
    } else if r.MessageDelete? {
      DeleteKeepsUnique(store.logs[r.channel], r.id);
    }
  }
}
