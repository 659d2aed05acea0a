/**
 * The channel store (db/channels.py): the channel index, a list of channel records,
 * and one message log per channel. The JSON files become values: the index is a
 * `seq<Channel>` and the logs a `map` from channel name to `seq<Message>`, where a
 * channel with no key is a channel whose log file does not exist. A missing index
 * file behaves exactly like an empty index, so the index is never absent.
 */
module Channels {
  import opened Wrappers

  /** A stored chat message. `kind` is the "type" field; `timestamp` stands for `time.time()`. */
  datatype Message = Message(user: string, content: string, timestamp: int, kind: string, pinned: bool, id: string)

  /** A channel record; a capability missing from `permissions` grants nothing. */
  datatype Channel = Channel(name: string, kind: string, permissions: map<string, seq<string>>)

  type Logs = map<string, seq<Message>>

  /** `permissions.get(capability, [])` */
  function AllowedRoles(c: Channel, capability: string): seq<string> {
    if capability in c.permissions then c.permissions[capability] else []
  }

  /** `any(role in allowed for role in roles)` */
  predicate Intersects(roles: seq<string>, allowed: seq<string>) {
    exists r :: r in roles && r in allowed
  }

  /** The log of a channel, the empty list when its file is missing. */
  function LogOf(logs: Logs, channel: string): seq<Message> {
    if channel in logs then logs[channel] else []
  }

  function Min(a: int, b: int): int {
    if a <= b then a else b
  }

  /** Python's `s[start:]` for any integer `start`: negative counts from the end, both clamp. */
  function SliceFrom<T>(s: seq<T>, start: int): (r: seq<T>)
    ensures |r| <= |s| && r == s[|s| - |r|..]
    ensures start >= 0 ==> |r| == |s| - Min(start, |s|)
    ensures start < 0 ==> |r| == Min(-start, |s|)
  {
    if start < 0 then s[(if |s| + start < 0 then 0 else |s| + start)..]
    else s[(if start > |s| then |s| else start)..]
  }

  /**
   * `get_channel_messages`: `channel_data[-limit:]`. A positive limit keeps the last
   * `limit` messages in order; since `-0` is `0`, a zero limit keeps the whole log.
   */
  function GetChannelMessages(logs: Logs, channel: string, limit: int): (r: seq<Message>)
    ensures channel !in logs ==> r == []
    ensures channel in logs ==> |r| <= |logs[channel]| && r == logs[channel][|logs[channel]| - |r|..]
    ensures channel in logs && limit > 0 ==> |r| == Min(limit, |logs[channel]|)
    ensures channel in logs && limit == 0 ==> r == logs[channel]
    ensures channel in logs && limit < 0 ==> |r| == |logs[channel]| - Min(-limit, |logs[channel]|)
  {
    if channel !in logs then [] else SliceFrom(logs[channel], -limit)
  }

  /** `save_channel_message` on values: the message goes at the end, a missing log starts empty. */
  function AppendMessage(logs: Logs, channel: string, m: Message): (r: Logs)
    ensures r.Keys == logs.Keys + {channel}
    ensures r[channel] == LogOf(logs, channel) + [m]
    ensures forall c :: c in logs && c != channel ==> r[c] == logs[c]
  {
    logs[channel := LogOf(logs, channel) + [m]]
  }

  /** Saving a message and then asking for the last one returns exactly that message. */
  lemma SaveThenGetLast(logs: Logs, channel: string, m: Message)
    ensures GetChannelMessages(AppendMessage(logs, channel, m), channel, 1) == [m]
  {
  }

  /** The last `limit` elements of a list with one element appended end with that element. */
  lemma {:induction false} SliceOfAppended<T>(log: seq<T>, m: T, limit: int)
    requires limit > 0
    ensures SliceFrom(log + [m], -limit) == log[|log| - Min(limit - 1, |log|)..] + [m]
  {
    var after := log + [m];
    var start := |log| - Min(limit - 1, |log|);
    assert SliceFrom(after, -limit) == after[start..];
    assert after[start..] == log[start..] + [m];
  }

  /** The last `limit` messages after a save end with the saved message, after what came before it. */
  lemma {:induction false} SaveThenGetLatest(logs: Logs, channel: string, m: Message, limit: int)
    requires limit > 0
    ensures var log := LogOf(logs, channel);
      GetChannelMessages(AppendMessage(logs, channel, m), channel, limit)
        == log[|log| - Min(limit - 1, |log|)..] + [m]
  {
    var saved := AppendMessage(logs, channel, m);
    assert saved[channel] == LogOf(logs, channel) + [m];
    SliceOfAppended(LogOf(logs, channel), m, limit);
  }

  /** Index of the first message with this id, as the `for ... if msg.get("id") == id` loops find it. */
  function FindMessage(log: seq<Message>, id: string): (r: Option<nat>)
    ensures r.Some? ==> r.value < |log| && log[r.value].id == id
    ensures r.Some? ==> forall j :: 0 <= j < r.value ==> log[j].id != id
    ensures r.None? ==> forall j :: 0 <= j < |log| ==> log[j].id != id
  {
    if |log| == 0 then None
    else if log[0].id == id then Some(0)
    else match FindMessage(log[1..], id)
      case None => None
      case Some(i) => Some(i + 1)
  }

  /** `get_channel_message`: the first message with the id, `None` when there is none or no log. */
  function GetChannelMessage(logs: Logs, channel: string, id: string): (r: Option<Message>)
    ensures r.Some? <==> channel in logs && exists j :: 0 <= j < |logs[channel]| && logs[channel][j].id == id
    ensures r.Some? ==> r.value.id == id && r.value in logs[channel]
    ensures r.Some? ==> exists i :: 0 <= i < |logs[channel]| && logs[channel][i] == r.value
                                    && forall j :: 0 <= j < i ==> logs[channel][j].id != id
  {
    if channel !in logs then None
    else match FindMessage(logs[channel], id)
      case None => None
      case Some(i) => Some(logs[channel][i])
  }

  /**
   * The loop of `edit_channel_message` on one log: the first message with the id gets the
   * new content, nothing else changes; `None` when no message has the id.
   */
  function EditLog(log: seq<Message>, id: string, content: string): (r: Option<seq<Message>>)
    ensures r.None? <==> forall j :: 0 <= j < |log| ==> log[j].id != id
    ensures r.Some? ==> |r.value| == |log|
    ensures r.Some? ==> forall j :: 0 <= j < |log| ==> r.value[j] == log[j].(content := r.value[j].content)
    ensures r.Some? ==> (exists i :: 0 <= i < |log| && log[i].id == id
                           && (forall j :: 0 <= j < i ==> log[j].id != id)
                           && r.value[i].content == content
                           && (forall j :: 0 <= j < |log| && j != i ==> r.value[j] == log[j]))
  {
    match FindMessage(log, id)
    case None => None
    case Some(i) => Some(log[i := log[i].(content := content)])
  }

  /** When the first message carries the id, the edit rewrites that message's content. */
  lemma EditFirstMessage(log: seq<Message>, id: string, content: string)
    requires |log| > 0 && log[0].id == id
    ensures EditLog(log, id, content) == Some(log[0 := log[0].(content := content)])
  {
  }

  /** `edit_channel_message` on values: `None` (returns False) when the log is missing or no id matches. */
  function EditInLogs(logs: Logs, channel: string, id: string, content: string): (r: Option<Logs>)
    ensures r.Some? <==> channel in logs && EditLog(logs[channel], id, content).Some?
    ensures r.Some? ==> r.value == logs[channel := EditLog(logs[channel], id, content).value]
  {
    if channel !in logs then None
    else match EditLog(logs[channel], id, content)
      case None => None
      case Some(log) => Some(logs[channel := log])
  }

  /** `[msg for msg in channel_data if msg.get("id") != message_id]` */
  function DeleteFromLog(log: seq<Message>, id: string): (r: seq<Message>)
    ensures |r| <= |log|
    ensures forall m :: m in r <==> m in log && m.id != id
  {
    if |log| == 0 then []
    else (if log[0].id != id then [log[0]] else []) + DeleteFromLog(log[1..], id)
  }

  /** The filter keeps the survivors in order: it distributes over concatenation. */
  lemma {:induction false} DeleteKeepsOrder(a: seq<Message>, b: seq<Message>, id: string)
    ensures DeleteFromLog(a + b, id) == DeleteFromLog(a, id) + DeleteFromLog(b, id)
  {
    if |a| > 0 {
      var head := if a[0].id != id then [a[0]] else [];
      assert (a + b)[0] == a[0];
      assert (a + b)[1..] == a[1..] + b;
      assert DeleteFromLog(a + b, id) == head + DeleteFromLog(a[1..] + b, id);
      DeleteKeepsOrder(a[1..], b, id);
      assert DeleteFromLog(a, id) == head + DeleteFromLog(a[1..], id);
      assert head + (DeleteFromLog(a[1..], id) + DeleteFromLog(b, id))
          == (head + DeleteFromLog(a[1..], id)) + DeleteFromLog(b, id);
    } else {
      assert a + b == b;
    }
  }

  /** Deleting an id no message carries changes nothing. */
  lemma {:induction false} DeleteAbsentIsIdentity(log: seq<Message>, id: string)
    requires forall j :: 0 <= j < |log| ==> log[j].id != id
    ensures DeleteFromLog(log, id) == log
  {
    if |log| > 0 {
      DeleteAbsentIsIdentity(log[1..], id);
      assert [log[0]] + log[1..] == log;
    }
  }

  /** Deleting twice is deleting once. */
  lemma DeleteIdempotent(log: seq<Message>, id: string)
    ensures DeleteFromLog(DeleteFromLog(log, id), id) == DeleteFromLog(log, id)
  {
    var r := DeleteFromLog(log, id);
    forall j | 0 <= j < |r| ensures r[j].id != id {
      assert r[j] in r;
    }
    DeleteAbsentIsIdentity(r, id);
  }

  /** `delete_channel_message` on values: `None` (returns False) only when the log is missing. */
  function DeleteInLogs(logs: Logs, channel: string, id: string): (r: Option<Logs>)
    ensures r.Some? <==> channel in logs
    ensures r.Some? ==> r.value.Keys == logs.Keys
    ensures r.Some? ==> r.value[channel] == DeleteFromLog(logs[channel], id)
    ensures r.Some? ==> forall c :: c in logs && c != channel ==> r.value[c] == logs[c]
  {
    if channel !in logs then None else Some(logs[channel := DeleteFromLog(logs[channel], id)])
  }

  /** Message ids are unique within a log. */
  predicate UniqueIds(log: seq<Message>) {
    forall i, j :: 0 <= i < j < |log| ==> log[i].id != log[j].id
  }

  /** The tail of a log with unique ids has unique ids, none of them the head's. */
  lemma TailUnique(log: seq<Message>)
    requires |log| > 0 && UniqueIds(log)
    ensures UniqueIds(log[1..])
    ensures forall m :: m in log[1..] ==> m.id != log[0].id
  {
    forall m | m in log[1..] ensures m.id != log[0].id {
      var k :| 0 <= k < |log[1..]| && log[1..][k] == m;
      assert log[k + 1] == m;
    }
  }

  /** A message whose id no message of a unique-id log carries can be put in front. */
  lemma ConsUnique(m: Message, rest: seq<Message>)
    requires UniqueIds(rest)
    requires forall x :: x in rest ==> x.id != m.id
    ensures UniqueIds([m] + rest)
  {
    var l := [m] + rest;
    forall i, j | 0 <= i < j < |l| ensures l[i].id != l[j].id {
      assert l[j] == rest[j - 1];
      if i > 0 {
        assert l[i] == rest[i - 1];
      } else {
        assert l[j] in rest;
      }
    }
  }

  /** Deletion keeps ids unique. */
  lemma {:induction false} DeleteUnique(log: seq<Message>, id: string)
    requires UniqueIds(log)
    ensures UniqueIds(DeleteFromLog(log, id))
  {
    if |log| > 0 {
      TailUnique(log);
      DeleteUnique(log[1..], id);
      var rt := DeleteFromLog(log[1..], id);
      if log[0].id != id {
        ConsUnique(log[0], rt);
        assert DeleteFromLog(log, id) == [log[0]] + rt;
      } else {
        assert DeleteFromLog(log, id) == rt;
      }
    }
  }

  /** With unique ids, a present id costs exactly one message. */
  lemma {:induction false} DeleteCount(log: seq<Message>, id: string)
    requires UniqueIds(log)
    requires exists j :: 0 <= j < |log| && log[j].id == id
    ensures |DeleteFromLog(log, id)| == |log| - 1
  {
    var tail := log[1..];
    TailUnique(log);
    assert DeleteFromLog(log, id) == (if log[0].id != id then [log[0]] else []) + DeleteFromLog(tail, id);
    if log[0].id == id {
      forall j | 0 <= j < |tail| ensures tail[j].id != id {
        assert tail[j] in tail;
      }
      DeleteAbsentIsIdentity(tail, id);
    } else {
      var j :| 0 <= j < |log| && log[j].id == id;
      assert tail[j - 1].id == id;
      DeleteCount(tail, id);
    }
  }

  /** Deleting keeps ids unique, and removes exactly one message when the id was present. */
  lemma DeleteKeepsUnique(log: seq<Message>, id: string)
    requires UniqueIds(log)
    ensures UniqueIds(DeleteFromLog(log, id))
    ensures (exists j :: 0 <= j < |log| && log[j].id == id) ==> |DeleteFromLog(log, id)| == |log| - 1
    ensures (forall j :: 0 <= j < |log| ==> log[j].id != id) ==> |DeleteFromLog(log, id)| == |log|
  {
    DeleteUnique(log, id);
    if exists j :: 0 <= j < |log| && log[j].id == id {
      DeleteCount(log, id);
    } else {
      DeleteAbsentIsIdentity(log, id);
    }
  }

  /** Editing keeps every id where it was, so it keeps ids unique. */
  lemma EditKeepsIds(log: seq<Message>, id: string, content: string)
    requires EditLog(log, id, content).Some?
    ensures var r := EditLog(log, id, content).value;
      |r| == |log| && forall j :: 0 <= j < |log| ==> r[j].id == log[j].id
    ensures UniqueIds(log) ==> UniqueIds(EditLog(log, id, content).value)
  {
  }

  /** Appending a message whose id is new keeps ids unique. */
  lemma AppendKeepsUnique(log: seq<Message>, m: Message)
    requires UniqueIds(log)
    requires forall j :: 0 <= j < |log| ==> log[j].id != m.id
    ensures UniqueIds(log + [m])
  {
  }

  /** The first channel of the index with this name. */
  function FindChannel(index: seq<Channel>, name: string): (r: Option<Channel>)
    ensures r.Some? ==> (exists i :: 0 <= i < |index| && index[i] == r.value && index[i].name == name
                           && forall j :: 0 <= j < i ==> index[j].name != name)
    ensures r.None? ==> forall j :: 0 <= j < |index| ==> index[j].name != name
  {
    if |index| == 0 then None
    else if index[0].name == name then Some(index[0])
    else
      var r := FindChannel(index[1..], name);
      assert r.Some? ==> (exists i :: 0 < i < |index| && index[i] == r.value && index[i].name == name
                            && forall j :: 0 <= j < i ==> index[j].name != name) by {
        if r.Some? {
          var i :| 0 <= i < |index| - 1 && index[1..][i] == r.value && index[1..][i].name == name
            && forall j :: 0 <= j < i ==> index[1..][j].name != name;
          assert forall j :: 0 < j < i + 1 ==> index[j].name != name by {
            forall j | 0 < j < i + 1 ensures index[j].name != name {
              assert index[j] == index[1..][j - 1];
            }
          }
        }
      }
      r
  }

  /** At most one position holds the first channel of a given name. */
  lemma FirstNamedUnique(index: seq<Channel>, name: string)
    ensures forall i, k :: 0 <= i < |index| && index[i].name == name && (forall j :: 0 <= j < i ==> index[j].name != name)
                        && 0 <= k < |index| && index[k].name == name && (forall j :: 0 <= j < k ==> index[j].name != name)
                        ==> i == k
  {
  }

  /**
   * `does_user_have_permission`: the first channel with that name decides; the user's roles
   * must meet the roles listed for the capability. A missing channel or capability denies.
   */
  predicate DoesUserHavePermission(index: seq<Channel>, name: string, roles: seq<string>, capability: string)
    ensures DoesUserHavePermission(index, name, roles, capability) <==>
      exists i :: 0 <= i < |index| && index[i].name == name
                  && (forall j :: 0 <= j < i ==> index[j].name != name)
                  && Intersects(roles, AllowedRoles(index[i], capability))
  {
    FirstNamedUnique(index, name);
    match FindChannel(index, name)
    case None => false
    case Some(c) => Intersects(roles, AllowedRoles(c, capability))
  }

  /** The permission check in full: it is decided by the first channel of that name alone. */
  lemma PermissionByFirstChannel(index: seq<Channel>, i: nat, roles: seq<string>, capability: string)
    requires i < |index|
    requires forall j :: 0 <= j < i ==> index[j].name != index[i].name
    ensures DoesUserHavePermission(index, index[i].name, roles, capability) <==>
              (capability in index[i].permissions
               && exists r :: r in roles && r in index[i].permissions[capability])
  {
    var r := FindChannel(index, index[i].name);
    var k :| 0 <= k < |index| && index[k] == r.value && index[k].name == index[i].name
      && forall j :: 0 <= j < k ==> index[j].name != index[i].name;
    assert k == i;
  }

  /** A channel missing from the index grants nothing, and neither do empty roles. */
  lemma PermissionDenied(index: seq<Channel>, name: string, roles: seq<string>, capability: string)
    requires (forall j :: 0 <= j < |index| ==> index[j].name != name) || roles == []
    ensures !DoesUserHavePermission(index, name, roles, capability)
  {
  }

  /** `get_all_channels_for_roles`: the channels whose "view" roles meet `roles`, in index order. */
  function GetAllChannelsForRoles(index: seq<Channel>, roles: seq<string>): (r: seq<Channel>)
    ensures |r| <= |index|
    ensures forall c :: c in r <==> c in index && Intersects(roles, AllowedRoles(c, "view"))
  {
    if |index| == 0 then []
    else
      (if Intersects(roles, AllowedRoles(index[0], "view")) then [index[0]] else [])
      + GetAllChannelsForRoles(index[1..], roles)
  }

  /** The listing is an order-preserving filter: it distributes over concatenation of indexes. */
  lemma {:induction false} ChannelsForRolesKeepsOrder(a: seq<Channel>, b: seq<Channel>, roles: seq<string>)
    ensures GetAllChannelsForRoles(a + b, roles) == GetAllChannelsForRoles(a, roles) + GetAllChannelsForRoles(b, roles)
  {
    if |a| > 0 {
      assert (a + b)[1..] == a[1..] + b;
      ChannelsForRolesKeepsOrder(a[1..], b, roles);
    } else {
      assert a + b == b;
    }
  }

  /**
   * The store as the server process sees it through the files: the index and the logs.
   * Its methods are the operations that rewrite a log file.
   */
  class ChannelDb {
    var index: seq<Channel>
    var logs: Logs

    constructor (index: seq<Channel>, logs: Logs)
      ensures this.index == index && this.logs == logs
    {
      this.index := index;
      this.logs := logs;
    }

    /** `save_channel_message`: appends, creating the log when missing, and always answers true. */
    method SaveChannelMessage(channel: string, message: Message) returns (saved: bool)
      modifies this
      ensures saved
      ensures index == old(index)
      ensures channel in logs && logs[channel] == LogOf(old(logs), channel) + [message]
      ensures logs == AppendMessage(old(logs), channel, message)
    {
      var data := LogOf(logs, channel);
      data := data + [message];
      logs := logs[channel := data];
      saved := true;
    }

    /** `edit_channel_message`: scans for the first matching id, rewrites its content, stops. */
    method EditChannelMessage(channel: string, id: string, content: string) returns (edited: bool)
      modifies this
      ensures index == old(index)
      ensures edited <==> EditInLogs(old(logs), channel, id, content).Some?
      ensures edited ==> logs == EditInLogs(old(logs), channel, id, content).value
      ensures !edited ==> logs == old(logs)
    {
      if channel !in logs {
        return false;
      }
      var data := logs[channel];
      var i := 0;
      while i < |data|
        invariant 0 <= i <= |data|
        invariant forall j :: 0 <= j < i ==> data[j].id != id
      {
        if data[i].id == id {
          var found := FindMessage(data, id);
          assert found == Some(i);
          data := data[i := data[i].(content := content)];
          logs := logs[channel := data];
          return true;
        }
        i := i + 1;
      }
      return false;
    }

    /** `delete_channel_message`: rewrites the log without the id; true even when nothing matched. */
    method DeleteChannelMessage(channel: string, id: string) returns (deleted: bool)
      modifies this
      ensures index == old(index)
      ensures deleted <==> channel in old(logs)
      ensures deleted ==> logs == old(logs)[channel := DeleteFromLog(old(logs)[channel], id)]
      ensures !deleted ==> logs == old(logs)
    {
      if channel !in logs {
        return false;
      }
      logs := logs[channel := DeleteFromLog(logs[channel], id)];
      deleted := true;
    }
  }
}
