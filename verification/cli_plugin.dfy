/**
 * The administration plugin (plugins/cli.py): users holding the "owner" or "admin"
 * role post `!server <subcommand> <args...>` in a channel; the plugin checks the
 * arguments and either answers in that channel with a usage or error sentence, or
 * hands a well-formed administrative action to the user and channel stores.
 *
 * Those stores (ban lists, roles, channel creation, purging, ...) are outside this
 * model: an action is the request handed to them, and its success is an input.
 */
module CliPlugin {
  import opened Wrappers
  import opened Text
  import opened Channels
  import opened Users
  import MessageHandler

  /** `required_permission`: any one of these roles unlocks the plugin. */
  const RequiredPermission: seq<string> := ["owner", "admin"]

  /** The user name the plugin posts its answers under. */
  const BotUser := "OriginChats"

  const Prefix := "!server "

  const UnknownCommand := "Unknown command. Use !server help for a list of commands."
  const InvalidChannelType := "Invalid channel type. Use 'text' or 'separator'."
  const NotPositive := "Number must be greater than 0."

  /** A well-formed administrative request, one per subcommand. */
  datatype AdminAction =
    | Ban(user: string)
    | Unban(user: string)
    | ListBanned
    | ListUsers
    | ListChannels
    | CreateChannel(name: string, kind: string)
    | DeleteChannel(name: string)
    | ReorderChannel(name: string, position: string)
    | GetChannel(name: string)
    | AddChannelPermission(name: string, role: string, permission: Option<string>)
    | RemChannelPermission(name: string, role: string, permission: Option<string>)
    | GetChannelPermissions(name: string)
    | CreateRole(role: string)
    | DeleteRole(role: string)
    | GiveRole(user: string, role: string)
    | RemoveRole(user: string, role: string)
    | ListRoles
    | UpdateRoleColor(role: string, color: string)
    | MessagePurge(count: nat)
    | Help(topic: Option<string>)
  {
    /** The subcommand word that requests this action. */
    function Tag(): string {
      match this
      case Ban(_) => "ban"
      case Unban(_) => "unban"
      case ListBanned => "list_banned"
      case ListUsers => "list_users"
      case ListChannels => "list_channels"
      case CreateChannel(_, _) => "create_channel"
      case DeleteChannel(_) => "delete_channel"
      case ReorderChannel(_, _) => "reorder_channel"
      case GetChannel(_) => "get_channel"
      case AddChannelPermission(_, _, _) => "add_channel_permission"
      case RemChannelPermission(_, _, _) => "rem_channel_permission"
      case GetChannelPermissions(_) => "get_channel_permissions"
      case CreateRole(_) => "create_role"
      case DeleteRole(_) => "delete_role"
      case GiveRole(_, _) => "give_role"
      case RemoveRole(_, _) => "remove_role"
      case ListRoles => "list_roles"
      case UpdateRoleColor(_, _) => "update_role_color"
      case MessagePurge(_) => "message_purge"
      case Help(_) => "help"
    }

    /** The argument tokens that request this action, after the subcommand word. */
    function Args(): seq<string> {
      match this
      case Ban(u) => [u]
      case Unban(u) => [u]
      case ListBanned => []
      case ListUsers => []
      case ListChannels => []
      case CreateChannel(n, k) => [n, k]
      case DeleteChannel(n) => [n]
      case ReorderChannel(n, p) => [n, p]
      case GetChannel(n) => [n]
      case AddChannelPermission(n, r, p) => [n, r] + (if p.Some? then [p.value] else [])
      case RemChannelPermission(n, r, p) => [n, r] + (if p.Some? then [p.value] else [])
      case GetChannelPermissions(n) => [n]
      case CreateRole(r) => [r]
      case DeleteRole(r) => [r]
      case GiveRole(u, r) => [u, r]
      case RemoveRole(u, r) => [u, r]
      case ListRoles => []
      case UpdateRoleColor(r, c) => [r, c]
      case MessagePurge(c) => [NatToDigits(c)]
      case Help(t) => if t.Some? then [t.value] else []
    }

    /** What the argument checks let through: a known channel type, a positive purge count. */
    predicate WellFormed() {
      match this
      case CreateChannel(_, k) => k == "text" || k == "separator"
      case MessagePurge(c) => c > 0
      case _ => true
    }
  }

  /** The subcommand words the plugin knows. */
  predicate IsSubcommand(sub: string) {
    sub in {"ban", "unban", "list_banned", "list_users", "list_channels", "create_channel",
            "delete_channel", "reorder_channel", "get_channel", "add_channel_permission",
            "rem_channel_permission", "get_channel_permissions", "create_role", "delete_role",
            "give_role", "remove_role", "list_roles", "update_role_color", "message_purge", "help"}
  }

  /** How many tokens, "!server" and the subcommand included, a subcommand needs. */
  function MinTokens(sub: string): nat {
    if sub in {"ban", "unban", "delete_channel", "get_channel", "get_channel_permissions",
               "create_role", "delete_role", "message_purge"} then 3
    else if sub in {"create_channel", "reorder_channel", "add_channel_permission",
                    "rem_channel_permission", "give_role", "remove_role", "update_role_color"} then 4
    else 2
  }

  /** How many tokens, "!server" and the subcommand included, a subcommand reads at most; later ones are ignored. */
  function MaxTokens(sub: string): nat {
    if sub in {"add_channel_permission", "rem_channel_permission"} then 5
    else if sub == "help" then 3
    else MinTokens(sub)
  }

  /** The usage sentence a subcommand answers when it has too few tokens. */
  function Usage(sub: string): string {
    match sub
    case "ban" => "Usage: !server ban <username>"
    case "unban" => "Usage: !server unban <username>"
    case "create_channel" => "Usage: !server create_channel <channel_name> <channel_type>"
    case "delete_channel" => "Usage: !server delete_channel <channel_name>"
    case "reorder_channel" => "Usage: !server reorder_channel <channel_name> <new_position>"
    case "get_channel" => "Usage: !server get_channel <channel_name>"
    case "add_channel_permission" => "Usage: !server add_channel_permissions <channel_name> <role> [permission]"
    case "rem_channel_permission" => "Usage: !server rem_channel_permissions <channel_name> <role> [permission]"
    case "get_channel_permissions" => "Usage: !server get_channel_permissions <channel_name>"
    case "create_role" => "Usage: !server create_role <role_name>"
    case "delete_role" => "Usage: !server delete_role <role_name>"
    case "give_role" => "Usage: !server give_role <username> <role_name>"
    case "remove_role" => "Usage: !server remove_role <username> <role_name>"
    case "update_role_color" => "Usage: !server update_role_color <role_name> <new_color>"
    case "message_purge" => "Usage: !server message_purge <number>"
    case _ => ""
  }

  /** The outcome of parsing a command: a sentence to answer with, or an action to carry out. */
  datatype ParseResult = Refuse(text: string) | Act(action: AdminAction)

  /** The optional token at position `i`. */
  function TokenAt(parts: seq<string>, i: nat): Option<string> {
    if i < |parts| then Some(parts[i]) else None
  }

  /**
   * The action a subcommand with enough valid tokens requests. `create_channel` lower-cases
   * its type and `message_purge` reads its count with `int()`; `BuildActionArgs` states
   * which tokens the other subcommands take.
   */
  function BuildAction(parts: seq<string>): (a: AdminAction)
    requires |parts| >= 2 && IsSubcommand(parts[1]) && |parts| >= MinTokens(parts[1])
    requires parts[1] == "message_purge" ==> IsDigits(parts[2])
    ensures a.Tag() == parts[1]
    ensures parts[1] == "create_channel" ==> a == CreateChannel(parts[2], Lower(parts[3]))
    ensures parts[1] == "message_purge" ==> a == MessagePurge(DigitsValue(parts[2]))
  {
    match parts[1]
    case "ban" => Ban(parts[2])
    case "unban" => Unban(parts[2])
    case "list_banned" => ListBanned
    case "list_users" => ListUsers
    case "list_channels" => ListChannels
    case "create_channel" => CreateChannel(parts[2], Lower(parts[3]))
    case "delete_channel" => DeleteChannel(parts[2])
    case "reorder_channel" => ReorderChannel(parts[2], parts[3])
    case "get_channel" => GetChannel(parts[2])
    case "add_channel_permission" => AddChannelPermission(parts[2], parts[3], TokenAt(parts, 4))
    case "rem_channel_permission" => RemChannelPermission(parts[2], parts[3], TokenAt(parts, 4))
    case "get_channel_permissions" => GetChannelPermissions(parts[2])
    case "create_role" => CreateRole(parts[2])
    case "delete_role" => DeleteRole(parts[2])
    case "give_role" => GiveRole(parts[2], parts[3])
    case "remove_role" => RemoveRole(parts[2], parts[3])
    case "list_roles" => ListRoles
    case "update_role_color" => UpdateRoleColor(parts[2], parts[3])
    case "message_purge" => MessagePurge(DigitsValue(parts[2]))
    case "help" => Help(TokenAt(parts, 2))
  }

  /**
   * The arguments of a built action are the tokens right after the subcommand word, as many
   * as the subcommand reads; any further tokens are ignored.
   */
  lemma BuildActionArgs(parts: seq<string>)
    requires |parts| >= 2 && IsSubcommand(parts[1]) && |parts| >= MinTokens(parts[1])
    requires parts[1] != "create_channel" && parts[1] != "message_purge"
    ensures var a := BuildAction(parts);
      && 2 + |a.Args()| == Min(|parts|, MaxTokens(parts[1]))
      && forall k :: 0 <= k < |a.Args()| ==> a.Args()[k] == parts[k + 2]
  {
    match parts[1]
    case "ban" =>
    case "unban" =>
    case "list_banned" =>
    case "list_users" =>
    case "list_channels" =>
    case "delete_channel" =>
    case "reorder_channel" =>
    case "get_channel" =>
    case "add_channel_permission" =>
    case "rem_channel_permission" =>
    case "get_channel_permissions" =>
    case "create_role" =>
    case "delete_role" =>
    case "give_role" =>
    case "remove_role" =>
    case "list_roles" =>
    case "update_role_color" =>
    case "help" =>
  }

  /**
   * The `match parts[1]` of `on_new_message`: unknown subcommand, then too few tokens,
   * then the per-subcommand argument checks, in that order.
   */
  function ParseCommand(parts: seq<string>): (r: ParseResult)
    requires |parts| >= 2
    ensures !IsSubcommand(parts[1]) ==> r == Refuse(UnknownCommand)
    ensures IsSubcommand(parts[1]) && |parts| < MinTokens(parts[1]) ==> r == Refuse(Usage(parts[1]))
    ensures r.Act? ==> IsSubcommand(parts[1]) && |parts| >= MinTokens(parts[1])
    ensures r.Act? ==> r.action.Tag() == parts[1] && r.action.WellFormed()
    ensures (IsSubcommand(parts[1]) && |parts| >= MinTokens(parts[1])
             && parts[1] != "create_channel" && parts[1] != "message_purge") ==> r.Act?
    ensures r.Act? ==> (parts[1] == "message_purge" ==> IsDigits(parts[2])) && r.action == BuildAction(parts)
    ensures parts[1] == "create_channel" && |parts| >= 4 ==>
      (r.Act? <==> Lower(parts[3]) == "text" || Lower(parts[3]) == "separator")
    ensures parts[1] == "create_channel" && |parts| >= 4 && r.Refuse? ==> r.text == InvalidChannelType
    ensures parts[1] == "message_purge" && |parts| >= 3 && !IsDigits(parts[2]) ==> r == Refuse(Usage("message_purge"))
    ensures parts[1] == "message_purge" && |parts| >= 3 && IsDigits(parts[2]) ==>
      r == (if DigitsValue(parts[2]) == 0 then Refuse(NotPositive) else Act(MessagePurge(DigitsValue(parts[2]))))
  {
    var sub := parts[1];
    if !IsSubcommand(sub) then Refuse(UnknownCommand)
    else if |parts| < MinTokens(sub) then Refuse(Usage(sub))
    else if sub == "create_channel" && Lower(parts[3]) != "text" && Lower(parts[3]) != "separator" then
      Refuse(InvalidChannelType)
    else if sub == "message_purge" && !IsDigits(parts[2]) then Refuse(Usage(sub))
    else if sub == "message_purge" && DigitsValue(parts[2]) == 0 then Refuse(NotPositive)
    else Act(BuildAction(parts))
  }

  /** Every well-formed action is requested by its own tokens. */
  lemma ParseRendered(a: AdminAction)
    requires a.WellFormed()
    ensures ParseCommand(["!server", a.Tag()] + a.Args()) == Act(a)
  {
    var parts := ["!server", a.Tag()] + a.Args();
    match a
    case CreateChannel(n, k) =>
      LowerFixed(k);
      assert parts[3] == k;
    case MessagePurge(c) =>
      DigitsRoundTrip(c);
      assert parts[2] == NatToDigits(c);
    case AddChannelPermission(n, r, p) =>
      assert TokenAt(parts, 4) == p;
    case RemChannelPermission(n, r, p) =>
      assert TokenAt(parts, 4) == p;
    case Help(t) =>
      assert TokenAt(parts, 2) == t;
    case _ =>
  }

  /** Whatever a command parses to, its action's own tokens parse to the same action. */
  lemma ParseIsCanonical(parts: seq<string>)
    requires |parts| >= 2 && ParseCommand(parts).Act?
    ensures var a := ParseCommand(parts).action;
      ParseCommand(["!server", a.Tag()] + a.Args()) == ParseCommand(parts)
  {
    ParseRendered(ParseCommand(parts).action);
  }

  /** A chat message as the plugin receives it; an absent key is `None`. */
  datatype ChatMessage = ChatMessage(content: Option<string>, channel: Option<string>)

  /** What the plugin does with one chat message. */
  datatype PluginResult = Ignored | Handled(channel: string, result: ParseResult)

  /** The role gate: the user holds at least one of the required roles. */
  predicate Authorized(roles: seq<string>) {
    Intersects(roles, RequiredPermission)
  }

  lemma AuthorizedIff(roles: seq<string>)
    ensures Authorized(roles) <==> "owner" in roles || "admin" in roles
  {
    if "owner" in roles {
      assert "owner" in RequiredPermission;
    } else if "admin" in roles {
      assert "admin" in RequiredPermission;
    }
  }

  /** The content the plugin looks at: the message's content, or "", stripped. */
  function CommandText(msg: ChatMessage): string {
    Strip(if msg.content.Some? then msg.content.value else "")
  }

  /** A text starting with "!server " splits into at least two tokens, the first being "!server". */
  lemma PrefixedSplit(content: string)
    requires StartsWith(content, Prefix)
    ensures Split(content) == ["!server"] + Split(content[|Prefix|..])
  {
    assert content == "!server" + " " + content[|Prefix|..];
    SplitAfterWord("!server", content[|Prefix|..]);
  }

  /**
   * `on_new_message`: an unauthenticated socket, a user without roles or without an
   * admin role, and content not starting with "!server " are all ignored; otherwise
   * the stripped content is split on single spaces and parsed.
   */
  function OnNewMessage(authenticated: bool, username: Option<string>, users: UserMap, msg: ChatMessage): (r: PluginResult)
    ensures r.Handled? <==>
      authenticated && Authorized(MessageHandler.SessionRoles(users, username)) && StartsWith(CommandText(msg), Prefix)
    ensures r.Handled? ==> r.channel == (if msg.channel.Some? then msg.channel.value else "general")
  {
    var roles := MessageHandler.SessionRoles(users, username);
    if !authenticated then Ignored
    else if |roles| == 0 then Ignored
    else if !Authorized(roles) then Ignored
    else
      var content := CommandText(msg);
      var channel := if msg.channel.Some? then msg.channel.value else "general";
      if StartsWith(content, Prefix) then
        PrefixedSplit(content);
        Handled(channel, ParseCommand(Split(content)))
      else Ignored
  }

  /** An authorised "!server" command is parsed from its tokens after the prefix. */
  lemma OnNewMessageParses(username: string, users: UserMap, content: string, channel: Option<string>)
    requires Authorized(GetUserRoles(users, username))
    requires StartsWith(Strip(content), Prefix)
    ensures var r := OnNewMessage(true, Some(username), users, ChatMessage(Some(content), channel));
      r.Handled? && r.result == ParseCommand(["!server"] + Split(Strip(content)[|Prefix|..]))
  {
    PrefixedSplit(Strip(content));
  }

  /** No subcommand word holds a space. */
  lemma TagHasNoSpace(a: AdminAction)
    ensures ' ' !in a.Tag()
  {
  }

  /** The line that requests `a`: "!server", the subcommand word and the arguments, joined by spaces. */
  function CommandLine(a: AdminAction): string {
    Join(["!server", a.Tag()] + a.Args())
  }

  /** The part of a command line after the "!server " prefix is the joined subcommand and arguments. */
  lemma CommandLineShape(a: AdminAction)
    ensures CommandLine(a) == Prefix + Join([a.Tag()] + a.Args())
  {
    var tokens := ["!server", a.Tag()] + a.Args();
    assert tokens[1..] == [a.Tag()] + a.Args();
  }

  /** With space-free arguments, the words after the prefix split back into the subcommand and its arguments. */
  lemma CommandWordsSplit(a: AdminAction)
    requires forall i :: 0 <= i < |a.Args()| ==> ' ' !in a.Args()[i]
    ensures Split(Join([a.Tag()] + a.Args())) == [a.Tag()] + a.Args()
  {
    var words := [a.Tag()] + a.Args();
    TagHasNoSpace(a);
    forall i | 0 <= i < |words| ensures ' ' !in words[i] {
      if i >= 1 {
        assert words[i] == a.Args()[i - 1];
      }
    }
    SplitJoin(words);
  }

  /**
   * Typing an action's tokens after "!server " performs exactly that action, provided
   * no token holds a space and the line has no surrounding whitespace.
   */
  lemma TypedCommandPerformsAction(username: string, users: UserMap, a: AdminAction, channel: Option<string>)
    requires Authorized(GetUserRoles(users, username))
    requires a.WellFormed()
    requires forall i :: 0 <= i < |a.Args()| ==> ' ' !in a.Args()[i]
    requires Strip(CommandLine(a)) == CommandLine(a)
    ensures OnNewMessage(true, Some(username), users, ChatMessage(Some(CommandLine(a)), channel))
      == Handled(if channel.Some? then channel.value else "general", Act(a))
  {
    var line := CommandLine(a);
    var tokens := ["!server", a.Tag()] + a.Args();
    assert ParseCommand(tokens) == Act(a) by {
      ParseRendered(a);
    }
    assert StartsWith(Strip(line), Prefix) && line[|Prefix|..] == Join([a.Tag()] + a.Args()) by {
      CommandLineShape(a);
    }
    assert ["!server"] + Split(line[|Prefix|..]) == tokens by {
      CommandWordsSplit(a);
    }
    OnNewMessageParses(username, users, line, channel);
  }

  /**
   * `send_message_to_channel`: the plugin's answer is stored as an ordinary message
   * from "OriginChats" with the stripped text, at the end of the channel's log.
   */
  method SendMessageToChannel(db: ChannelDb, channel: string, content: string, now: int, freshId: string)
      returns (m: Message)
    modifies db
    ensures m == Message(BotUser, Strip(content), now, "message", false, freshId)
    ensures db.logs == AppendMessage(old(db.logs), channel, m)
    ensures db.index == old(db.index)
  {
    m := Message(BotUser, Strip(content), now, "message", false, freshId);
    var _ := db.SaveChannelMessage(channel, m);
  }
}
