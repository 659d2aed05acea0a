# originChats core, modelled in Dafny

originChats is a small WebSocket chat server. This project models and proves the parts of it that decide and update things:

- **Channel store** (`db/channels.py`): an index of channel records and one message log per channel. It supports last-`limit` retrieval, append, edit of the first message with an id, lookup by id, delete-by-id, the role-intersection permission check and the role-filtered channel listing.
- **User store** (`db/users.py`): insert-if-absent with a default record, lookups, and roles that default to `[]`.
- **Command dispatcher** (`handlers/message.py`): `handle` maps the session's username, a decoded frame and the store to a reply and a new store.
- **File watcher** (`watchers.py`):
  - the structural diff of two user maps;
  - the cache and broadcast rule when `users.json` or `channels.json` changes;
  - the choice of handler from the modified path;
  - the defaults used when a file cannot be read.
- **Delivery** (`handlers/websocket_utils.py`):
  - `send_to_client` reports success as a boolean;
  - `broadcast_to_all` sends to a snapshot of the client set and prunes exactly the clients that failed;
  - `heartbeat` pings until the first failure.
- **Connection loop** (`server.py`):
  - whether a frame goes to authentication, is answered "Authentication required", or reaches the dispatcher;
  - whether a reply is dropped, broadcast or unicast;
  - the effect of connecting and disconnecting on the client set;
  - the rate-limiter settings chosen from the configuration.
- **Admin plugin** (`plugins/cli.py`): the owner/admin gate, the `!server <subcommand> <args…>` parser with its arity and argument checks, and the message the plugin posts its answers as.

The JSON files are values in the model:

- The channel index is a `seq<Channel>`.
- The logs are a `map<string, seq<Message>>`. A channel without a key is one whose log file does not exist.
- The users file is a `map<string, User>`.

In the store functions of `db/channels.py` and `db/users.py`, a missing index or users file behaves exactly like an empty one, so the stores represent it that way. The file watcher is different: there a missing file makes the handler fail and change nothing, while an empty file is a real change, so its reads are `Loaded` values that keep `Missing` apart from an empty value. The clock (`time.time()`) and the id generator (`uuid.uuid4()`) are parameters (`now`, `freshId`). So are a send's outcome, a file read's outcome, an authentication attempt's outcome and the command handler's reply as the server loop sees it.

Functions over values are the specification. The operations the source performs in place are classes whose methods are proved against those functions:

- `ChannelDb` (the log files);
- `UserDb` (the users file);
- `ClientSet` and `Connection` (the shared client set and the per-socket attributes);
- `FileWatcher` (the caches);
- `OriginChatsServer`.

Files: `wrappers.dfy` (`Option`), `text.dfy` (the Python string operations the code relies on), `channels.dfy`, `users.dfy`, `message_handler.dfy`, `websocket_utils.dfy`, `watchers.dfy`, `server.dfy`, `cli_plugin.dfy`.

Where the code and its documentation differ, the model follows the code:

- `server.py:96` calls `message_handler.handle(websocket, data, server_data)`, but `handlers/message.py:6` declares `handle(ws, message)`. As written, that call raises `TypeError`, which `server.py:111` logs and swallows. The dispatcher is therefore modelled with its own two-argument signature. The server loop is modelled over an abstract reply that includes `Raised`, and the two are not wired together.
- `message_edit` performs no authorship or capability check and stores the new content unstripped. An edit can therefore leave a blank message that `message_new` would refuse. `EditCanBlankContent` exhibits one.

## Model

| member | source | states |
|---|---|---|
| Text.TrimStart | handlers/message.py:31 | the result is a suffix of the input, every dropped character is whitespace, and the result does not start with whitespace |
| Text.TrimEnd | handlers/message.py:31 | the result is a prefix of the input, every dropped character is whitespace, and the result does not end with whitespace |
| Text.Strip | handlers/message.py:31 | the result is no longer than the input and neither starts nor ends with whitespace |
| Text.StripCuts | handlers/message.py:31 | `str.strip()` is the input with only whitespace cut from both ends: a slice `s[i..i+|r|]` whose dropped prefix and suffix are all whitespace |
| Text.StripEmptyIff | handlers/message.py:31-33 | stripping gives "" exactly when every character is whitespace (the "content cannot be empty" test) |
| Text.StripFixed | plugins/cli.py:31 | a string without surrounding whitespace is left unchanged by `strip` |
| Text.StripIdempotent | plugins/cli.py:31 | stripping twice is stripping once |
| Text.Split | plugins/cli.py:69 | `split(" ")` gives at least one part and no part contains a space |
| Text.JoinSplit | plugins/cli.py:69 | joining the parts of `split(" ")` with spaces gives back the string (no character is lost) |
| Text.SplitAfterWord | plugins/cli.py:69-72 | a space-free word followed by a space splits off as the first part |
| Text.SplitWord | plugins/cli.py:69 | a space-free word splits into itself |
| Text.SplitJoin | plugins/cli.py:69 | splitting the space-joined list of space-free tokens gives back the tokens |
| Text.DigitsValuePositive | plugins/cli.py:256-262 | the value of a digit string is positive exactly when some digit is not '0' (so "0" and "00" are refused) |
| Text.NatToDigits | plugins/cli.py:256 | the decimal form of a number is a non-empty digit string without a leading zero |
| Text.DigitsRoundTrip | plugins/cli.py:259 | `int()` of the decimal form of n is n |
| Text.DigitsCanonical | plugins/cli.py:256-259 | a digit string without a leading zero is the decimal form of its `int()` value (the reverse round trip) |
| Text.Lower | plugins/cli.py:126 | `lower()` keeps the length and lowers each character |
| Text.LowerFixed | plugins/cli.py:126-127 | a string without upper-case letters is its own lower-case form |
| Channels.SliceFrom | db/channels.py:27 | Python's `s[start:]` is a suffix of `s` of length `len - min(start, len)` for a non-negative start and `min(-start, len)` for a negative one |
| Channels.GetChannelMessages | db/channels.py:8-27 | no log gives []; otherwise the result is a suffix of the log, of length min(limit, len) for a positive limit; a zero limit gives the whole log; a negative limit drops that many from the front |
| Channels.AppendMessage | db/channels.py:43-51 | saving makes the channel's log the old log (or [] when missing) followed by the message, and leaves every other channel's log unchanged |
| Channels.SaveThenGetLast | db/channels.py:27-51 | after a save, the last message of the channel is exactly the saved one |
| Channels.SliceOfAppended | db/channels.py:27-51 | the last `limit` entries of a log with one more appended are the old log's last `limit-1` followed by the new entry |
| Channels.SaveThenGetLatest | db/channels.py:27-51 | after a save, the last `limit` messages are the previous last `limit-1` followed by the saved one |
| Channels.FindMessage | db/channels.py:98-101 | the index found holds the id and no earlier message does; none found means no message holds the id |
| Channels.GetChannelMessage | db/channels.py:115-135 | a message is returned exactly when the log exists and holds the id; it is the first message of the log with that id |
| Channels.EditLog | db/channels.py:98-103 | no match iff no message has the id; otherwise the length is kept, only `content` may change, and exactly the first message with the id gets the new content |
| Channels.EditInLogs | db/channels.py:94-113 | succeeds exactly when the log exists and holds the id, and replaces only that channel's log by the edited one |
| Channels.DeleteFromLog | db/channels.py:178 | the survivors are exactly the messages whose id differs |
| Channels.DeleteKeepsOrder | db/channels.py:178 | the filter distributes over concatenation, so survivors keep their order |
| Channels.DeleteAbsentIsIdentity | db/channels.py:178 | deleting an id no message carries changes nothing |
| Channels.DeleteIdempotent | db/channels.py:178-186 | deleting twice is deleting once |
| Channels.DeleteInLogs | db/channels.py:174-188 | fails only for a missing log (true even when nothing matched); the channel's log becomes the filtered log, the set of channels is kept and other logs are unchanged |
| Channels.DeleteUnique | db/channels.py:178 | deleting from a log with unique ids keeps them unique |
| Channels.DeleteCount | db/channels.py:178 | with unique ids, deleting a present id removes exactly one message |
| Channels.DeleteKeepsUnique | db/channels.py:178 | with unique ids, deletion keeps them unique and removes one message when the id was present, none otherwise |
| Channels.EditKeepsIds | db/channels.py:98-101 | an edit keeps every id in place, hence keeps ids unique |
| Channels.AppendKeepsUnique | db/channels.py:51 | appending a message with a new id keeps ids unique |
| Channels.FindChannel | db/channels.py:153-154 | the channel found is the first one with the name; none found means no channel has it |
| Channels.DoesUserHavePermission | db/channels.py:137-161 | the check is true iff some channel of that name, with no earlier channel of that name, lists the capability for a role the user holds |
| Channels.PermissionByFirstChannel | db/channels.py:153-157 | the permission check is true iff the first channel of that name lists the capability with a role the user holds |
| Channels.PermissionDenied | db/channels.py:158-161 | a channel missing from the index, or empty roles, grants nothing |
| Channels.GetAllChannelsForRoles | db/channels.py:59-80 | the listing holds exactly the index channels whose "view" roles meet the user's roles |
| Channels.ChannelsForRolesKeepsOrder | db/channels.py:73-77 | the listing is an order-preserving filter: it distributes over concatenation |
| Channels.ChannelDb.SaveChannelMessage | db/channels.py:29-57 | always true; the channel's log becomes the old log (or []) plus the message; nothing else changes |
| Channels.ChannelDb.EditChannelMessage | db/channels.py:82-113 | the scan-and-break loop edits exactly as `EditInLogs`; false and no change when the log is missing or no id matches |
| Channels.ChannelDb.DeleteChannelMessage | db/channels.py:163-188 | true iff the log exists, and then the log is filtered by id; otherwise no change |
| Users.GetUser | db/users.py:19-28 | the record is returned exactly when the id is present |
| Users.GetUserRoles | db/users.py:50-57 | the user's "roles" when the user exists and has them, otherwise [] |
| Users.MissingFileHasNoUsers | db/users.py:8-28 | with the users file missing (an empty map), no user exists, `get_user` gives None and the roles are [] |
| Users.UserDb.AddUser | db/users.py:30-48 | an existing id gives false and no change; a new id gets exactly the default record, after which the user exists with the default's roles, and no other user changes |
| MessageHandler.TextChannelNames | handlers/message.py:127 | the names listed are exactly those of the channels of type "text" |
| MessageHandler.HandleMessageNew | handlers/message.py:22-56 | never touches index or users; an error changes nothing; success appends the new message, carrying the fresh id, to the named channel |
| MessageHandler.HandleMessageEdit | handlers/message.py:57-68 | never touches index or users; an error changes nothing; success is the store edit of the reply's id and content |
| MessageHandler.HandleMessageDelete | handlers/message.py:69-96 | never touches index or users; an error changes nothing; success is the store deletion of the reply's id |
| MessageHandler.HandleChannelsGet | handlers/message.py:97-107 | replies with a listing or an error and never changes the store |
| MessageHandler.HandleMessagesGet | handlers/message.py:108-131 | replies with messages or an error and never changes the store |
| MessageHandler.Handle | handlers/message.py:6-133 | index and users are never written; an error leaves the store unchanged; a store change implies a global reply; a non-object frame is an error; the new/edit/delete store effects |
| MessageHandler.PingIsPong | handlers/message.py:19-21 | `ping` answers pong with the store unchanged |
| MessageHandler.NonDictIsError | handlers/message.py:15-16 | a non-object frame gets the format error naming its type, and no change |
| MessageHandler.UnknownCommandEchoes | handlers/message.py:132-133 | an unknown command's error echoes its tag ("None" when missing), with no change |
| MessageHandler.MessageNewDispatch | handlers/message.py:22 | a `message_new` frame reaches its branch with its channel and content fields, whatever its `id` and `limit` fields hold |
| MessageHandler.MessageNewBranch | handlers/message.py:22-56 | the `message_new` branch succeeds iff channel, content and user are given, content is not all whitespace, the user has roles and "send" on the channel; then the stripped record is the one appended to that channel's log; otherwise an error and no change |
| MessageHandler.MessageNewSpec | handlers/message.py:22-56 | for any `message_new` frame, whatever its unread fields: success iff channel, content and user are given, content is not all whitespace, the user has roles and "send" on the channel; then exactly the stripped record is appended to that channel only and the reply is global; otherwise an error and no change |
| MessageHandler.MessageNewContentStripped | handlers/message.py:31-33 | for any `message_new` frame, a stored message's content is non-empty and already stripped |
| MessageHandler.LastAfterSave | handlers/message.py:108-131 | for a reader of the channel, `messages_get` with limit 1 right after a save returns exactly the saved message |
| MessageHandler.NewThenGetLast | handlers/message.py:44-131 | sending and then fetching the last message returns exactly the record stored |
| MessageHandler.MessagesGetDispatch | handlers/message.py:108 | a `messages_get` frame reaches its branch with its channel and limit, whatever its `content` and `id` fields hold |
| MessageHandler.ReadLastBranch | handlers/message.py:108-131 | for a reader of the channel, the `messages_get` branch with limit 1 answers with the channel's last message |
| MessageHandler.SendWithoutCapabilityRefused | handlers/message.py:39-41 | without "send" on the channel, any `message_new` frame gets an error and nothing is stored |
| MessageHandler.MessageEditDispatch | handlers/message.py:57 | a `message_edit` frame reaches its branch with its id, channel and content fields, whatever its `limit` holds |
| MessageHandler.EditIgnoresRequester | handlers/message.py:57-68 | for any `message_edit` frame, the outcome does not depend on who asks; success iff the fields are given and the store edit succeeds; then the reply echoes the id, the unstripped content and the channel and is global; otherwise an error and no change |
| MessageHandler.EditCanBlankContent | handlers/message.py:63-68 | an edit to "  " succeeds and stores whitespace-only content |
| MessageHandler.MessageDeleteDispatch | handlers/message.py:69 | a `message_delete` frame reaches its branch with its id and channel, whatever its `content` and `limit` fields hold |
| MessageHandler.DeleteMissingIsNotFound | handlers/message.py:76-79 | for any `message_delete` frame, an id the channel does not hold answers "not found" before any role check |
| MessageHandler.DeleteBranchAuthorization | handlers/message.py:77-96 | the `message_delete` branch succeeds iff the user has roles and is the author or holds "delete_others"; then the log is filtered by id and the reply echoes the id and channel and is global; otherwise an error and no change |
| MessageHandler.DeleteAuthorization | handlers/message.py:77-96 | for any `message_delete` frame, whatever its unread fields: deletion succeeds iff the user has roles and is the author or holds "delete_others"; then the log is filtered by id and the reply echoes the id and channel and is global; otherwise an error and no change |
| MessageHandler.MessagesGetSpec | handlers/message.py:108-131 | for any `messages_get` frame, whatever its unread fields: success iff the channel is among the caller's visible text channels, with the channel echoed and its last `limit` messages (100 by default); the store never changes |
| MessageHandler.ChannelsGetDispatch | handlers/message.py:97 | a `channels_get` frame reaches its branch whatever its other fields |
| MessageHandler.ChannelsGetSpec | handlers/message.py:97-107 | `channels_get` succeeds iff the session has a username whose record exists and is not empty, and then lists the channels whose "view" roles meet the user's roles; otherwise an error; the store never changes |
| MessageHandler.HandleKeepsIdsUnique | handlers/message.py:44-56 | with a fresh id per new message, every command keeps message ids unique within each channel |
| WebsocketUtils.Connection.constructor | server.py:75-83 | a socket starts unauthenticated, with no username |
| WebsocketUtils.ClientSet.constructor | server.py:18 | the client set starts empty |
| WebsocketUtils.SendToClient | handlers/websocket_utils.py:3-13 | true exactly when the send went through, so a closed connection or any other failure gives false |
| WebsocketUtils.SendToEach | handlers/websocket_utils.py:29-35 | one attempt per client of the snapshot, none twice, none skipped after a failure; `disconnected` is exactly the snapshot clients whose send failed |
| WebsocketUtils.DiscardAll | handlers/websocket_utils.py:38-39 | the set afterwards is the set before minus the failed clients; absent clients are no error and others are untouched |
| WebsocketUtils.BroadcastToAll | handlers/websocket_utils.py:27-44 | every snapshot client is tried exactly once; the returned set is exactly the failures; the live set loses exactly those |
| WebsocketUtils.FirstFailure | handlers/websocket_utils.py:18-21 | the position found is a failed ping preceded only by successful ones; none found means all succeeded |
| WebsocketUtils.Heartbeat | handlers/websocket_utils.py:15-25 | pings continue while they succeed and stop right after the first failure, whose position decides how many were sent |
| Watchers.ApplyChanges | watchers.py:59-79 | replaying a diff keeps the old keys not deleted and adds the added and modified keys |
| Watchers.UserDiff | watchers.py:59-79 | `added` holds exactly the new ids with their new records, `deleted` exactly the ids gone, `modified` exactly the ids in both maps whose record differs, with the new record; the three parts are disjoint |
| Watchers.DiffRoundTrip | watchers.py:59-79 | replaying the diff of two maps onto the first gives the second, so `added` and `modified` carry the new values |
| Watchers.DiffEmptyIff | watchers.py:59-92 | the diff is empty exactly when the two maps are equal |
| Watchers.Basename | watchers.py:41 | the basename is the slash-free suffix after the last slash |
| Watchers.BasenameOfName | watchers.py:41 | a slash-free name is its own basename |
| Watchers.BasenameAfterSlash | watchers.py:41 | a path ending in "/" plus a slash-free name has that name as basename |
| Watchers.BasenameShape | watchers.py:41 | the basename is the whole path or follows a slash |
| Watchers.BasenameIs | watchers.py:41 | a path has a given slash-free basename iff it is that name or ends in "/" plus that name |
| Watchers.FileNamesHaveNoSlash | watchers.py:44-52 | the two watched names, "users.json" and "channels.json", hold no slash, so they are basenames |
| Watchers.OnModified | watchers.py:37-57 | directories are ignored; the users handler runs iff the basename is "users.json", the channels handler iff it is "channels.json" |
| Watchers.OnModifiedUsers | watchers.py:37-49 | the users handler runs exactly for non-directory paths that are "users.json" or end in "/users.json" |
| Watchers.OnModifiedChannels | watchers.py:37-57 | the channels handler runs exactly for non-directory paths that are "channels.json" or end in "/channels.json" |
| Watchers.FileWatcher.constructor | watchers.py:11-35 | the users cache is the file or {}, the channels cache the file or [] |
| Watchers.FileWatcher.FindUserChanges | watchers.py:59-79 | the loops build exactly the diff of the two maps |
| Watchers.FileWatcher.AddedAndModified | watchers.py:67-72 | the loop over the new map builds exactly the added and modified parts |
| Watchers.FileWatcher.Deleted | watchers.py:74-77 | the loop over the old map builds exactly the deleted part |
| Watchers.FileWatcher.HandleUsersChange | watchers.py:81-103 | on a readable file, `user_edit` is broadcast iff the new map differs from the cache, carrying their diff, and the cache becomes the new map; on a failed read nothing changes; the channels cache is never touched |
| Watchers.FileWatcher.HandleChannelsChange | watchers.py:105-118 | on a readable file the whole new list is broadcast, on a failed read nothing; no cache changes |
| ChatServer.RateLimiterFor | server.py:24-33 | a limiter exists iff `enabled` is present and true, with each setting defaulting to 30/min, burst 5, cooldown 60 |
| ChatServer.RouteFrame | server.py:72-112 | unparsable or non-object frames are dropped; "auth" goes to authentication only while unauthenticated; any other frame of an unauthenticated session gets "Authentication required"; only authenticated sessions reach the dispatcher |
| ChatServer.RouteReply | server.py:96-107 | a raised or falsy reply sends nothing; a global reply is broadcast; any other is sent to the sender only |
| ChatServer.Step | server.py:75-80 | a successful authentication of an unauthenticated session sets it to authenticated with the established username; nothing else changes the session |
| ChatServer.Run | server.py:70-85 | over any frame sequence, a username is set exactly when the session is authenticated (when it held at the start), and a session still unauthenticated at the end was never changed |
| ChatServer.AuthenticatedIsFinal | server.py:75-80 | once authenticated, no later frame changes the session or its username |
| ChatServer.AuthenticatedOnlyByAuth | server.py:75-85 | a session that became authenticated went through a successful "auth" frame |
| ChatServer.DispatchOnlyAfterAuth | server.py:75-96 | no frame reaches the dispatcher before an earlier frame authenticated the connection |
| ChatServer.OriginChatsServer.constructor | server.py:12-33 | no clients, heartbeat interval 30, and the rate limiter the configuration selects |
| ChatServer.OriginChatsServer.Connect | server.py:52 | a new connection joins the client set |
| ChatServer.OriginChatsServer.OnFrame | server.py:70-107 | the frame is routed as `RouteFrame` says; the session changes as `Step` says; an authentication attempt leaves the set minus the clients its handler dropped; a broadcast reply prunes exactly the failed clients; nothing else changes the set |
| ChatServer.OriginChatsServer.Disconnect | server.py:118-129 | the connection leaves the set; `user_disconnect` goes out iff it was still in the set and authenticated, and that broadcast prunes the failed clients |
| CliPlugin.BuildAction | plugins/cli.py:72-266 | the action built is the one the subcommand word names; `create_channel` takes the name and the lower-cased type, `message_purge` the `int()` of its token |
| CliPlugin.BuildActionArgs | plugins/cli.py:72-269 | the other subcommands take the tokens right after the subcommand word, as many as they read (the permission and help arguments are optional); any further tokens are ignored |
| CliPlugin.ParseCommand | plugins/cli.py:72-313 | an unknown word gives the "Unknown command" reply; too few tokens give the subcommand's usage; with enough tokens every subcommand except `create_channel` and `message_purge` is acted on; an accepted action is well-formed and is `BuildAction` of the tokens; `create_channel` accepts only a lower-cased "text" or "separator"; `message_purge` needs digits and a positive value ("0" gives "Number must be greater than 0.") |
| CliPlugin.ParseRendered | plugins/cli.py:72-266 | every well-formed action is parsed back from its own tokens |
| CliPlugin.ParseIsCanonical | plugins/cli.py:72-266 | any accepted command parses the same as the rendered tokens of its action |
| CliPlugin.AuthorizedIff | plugins/cli.py:59-65 | the role gate passes iff the user holds "owner" or "admin" (the `required_permission` list) |
| CliPlugin.PrefixedSplit | plugins/cli.py:69-72 | content starting with "!server " splits into "!server" followed by the split of the rest, so `parts[1]` exists |
| CliPlugin.OnNewMessage | plugins/cli.py:49-72 | the plugin acts iff the socket is authenticated, the user holds "owner" or "admin", and the stripped content starts with "!server "; it answers in the message's channel or "general" |
| CliPlugin.OnNewMessageParses | plugins/cli.py:67-72 | an authorised "!server" line is parsed from the tokens after the prefix |
| CliPlugin.TypedCommandPerformsAction | plugins/cli.py:49-266 | typing an action's space-free tokens after "!server " performs exactly that action |
| CliPlugin.SendMessageToChannel | plugins/cli.py:22-39 | the answer is appended to the channel as a message from "OriginChats" with the stripped text, type "message", not pinned, and the fresh id |

## Left out

- File and JSON I/O (`open`, `json.load`/`dump`, `os.makedirs`) are not modelled. Files are values, a missing file is an absent key or an empty value, and a read's outcome is an input (`Loaded`).
- JSON values of unexpected types are not modelled. Examples: a non-string "cmd" or "content", a JSON `null` limit, a users file that is a list, a user record that is not an object. Frame fields are `Option<string>` and the limit is `Option<int>`.
- asyncio tasks, `sleep`, `run_coroutine_threadsafe`, the watchdog observer thread and `setup_file_watchers` (watchers.py:120-137) are not modelled. A handler being invoked is the function or method being called.
- WebsocketUtils.BroadcastToAll: each send is awaited, so other coroutines may change the client set between sends. The model has no such interleaving; its clean-up works on whatever the set then holds.
- WebsocketUtils.Heartbeat: the interval sleep and cancellation by the connection's `finally` are not modelled. The pings are the finite sequence the task gets to send before it is cancelled.
- `print` logging, `test_logger.py` and `init.py` are not modelled.
- Text.Strip: its own contract states only the length bound and that neither end is whitespace. That the result is the input with only its surrounding whitespace cut is the lemma `Text.StripCuts`, kept apart so that the quantified statement is not drawn into every proof about a stripped string.
- The handshake message (server.py:60-67), the client-IP lookup (server.py:48) and `start_server` with its port and host defaults (server.py:135-160) are not modelled.
- `handlers/auth`, `handlers/rate_limiter`, `plugin_manager` and `logger` are not part of this model. An authentication attempt is reduced to the username it establishes, or none. The limiter's own behaviour is not modelled, only the settings it is built with.
- ChatServer.OnFrame: `handle_authentication` (server.py:76-79) is not part of this model. It is handed the client set, and its effect on that set is an input: the clients its own sends dropped (`authPruned`). Which clients those are, and whether a failed attempt sends anything, is not modelled.
- ChatServer.OnFrame: the dispatcher's reply is an input (`Response`), because of the `handle` arity mismatch described above.
- ChatServer.OnFrame: the `auth_error` reply and a unicast reply are single sends whose outcome does not change the client set, so only their routing is stated.
- The store calls of the admin plugin are not part of this model: `users.ban_user`, `unban_user`, `get_banned_users`, `get_users`, `create_role`, `delete_role`, `give_role`, `remove_role`, `get_roles` and `update_role`, and `channels.get_channels`, `create_channel`, `delete_channel`, `reorder_channel`, `get_channel`, `set_channel_permissions`/`set_channel_permission` (cli.py:174 and 185 use different names), `get_channel_permissions` and `purge_messages`. None of them is defined in `db/`. A parsed `AdminAction` is the request handed to them.
- The sentences the plugin posts after a store call, the listing replies and the help text (plugins/cli.py:78-266, 267-311) are not modelled.
- `disconnect_user`, which the `ban` branch imports (plugins/cli.py:82), is not defined in `handlers/websocket_utils.py` and is not part of this model.
- CliPlugin.SendMessageToChannel: the broadcast it schedules when `server_data` holds the client set (plugins/cli.py:42-47) is not modelled, only the save.
- CliPlugin.ParseCommand: `isdigit` and `int()` are ASCII-only. Python's `isdigit` also accepts other Unicode digits. `int()` reads the decimal ones, such as "٣" or "３", so the source hands 3 to `purge_messages` where the model answers with the usage line. It raises on the others, such as "²".
- CliPlugin.ParseCommand: `lower()` is ASCII-only. This is exact for the "text"/"separator" test, because no other character lowers to a letter of those words, but a non-ASCII channel type is not lowered.
- Watchers.FileWatcher.FindUserChanges: `deleted` is a set. The order of the Python list, which is the dict's iteration order, is not modelled.
- Channel logs are keyed by the raw channel name, but the source opens `f"{channels_db_dir}/{channel_name}.json"` (db/channels.py:21, 45, 95, 127, 175). So names such as "general" and "./general" reach the same file there, and are different channels in the model. Path normalisation and the file system's aliasing are not modelled. An edit sent through "./general" succeeds in the source and fails in the model.
- `time.time()` and `uuid.uuid4()` are not modelled; they are the parameters `now` and `freshId`. The uniqueness of message ids assumes a fresh id (`HandleKeepsIdsUnique`).
