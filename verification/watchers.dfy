/**
 * The file watcher (watchers.py): it keeps a copy of the user file and of the
 * channel index, reacts to modification events on them, and tells the clients
 * what changed. Reading a file is an input: its outcome is a `Loaded` value.
 */
module Watchers {
  import opened Wrappers
  import opened Users
  import opened Channels

  /** The outcome of opening and parsing a JSON file. */
  datatype Loaded<T> = Loaded(value: T) | Missing | Unparsable

  /** The loaded value, or the given default when the file is missing or unparsable. */
  function ValueOr<T>(file: Loaded<T>, default: T): T {
    if file.Loaded? then file.value else default
  }

  /** The `changes` object of a `user_edit` frame. `deleted` is kept as a set of ids. */
  datatype UserChanges = UserChanges(added: UserMap, modified: UserMap, deleted: set<string>) {
    /** `not any(changes.values())`: all three parts are empty. */
    predicate IsEmpty() {
      |added| == 0 && |modified| == 0 && |deleted| == 0
    }
  }

  /**
   * The diff of two user maps, stated part by part: new ids are added, ids gone are deleted,
   * ids in both whose record differs are modified. The three parts are disjoint.
   */
  function UserDiff(before: UserMap, after: UserMap): (d: UserChanges)
    ensures d.added.Keys == after.Keys - before.Keys
    ensures d.deleted == before.Keys - after.Keys
    ensures forall id :: id in d.modified <==> id in before && id in after && before[id] != after[id]
    ensures forall id :: id in d.added ==> d.added[id] == after[id]
    ensures forall id :: id in d.modified ==> d.modified[id] == after[id]
    ensures d.added.Keys !! d.modified.Keys && d.added.Keys !! d.deleted && d.modified.Keys !! d.deleted
  {
    UserChanges(
      map id | id in after && id !in before :: after[id],
      map id | id in after && id in before && before[id] != after[id] :: after[id],
      set id | id in before && id !in after)
  }

  /** Replays a diff onto the old map. */
  function ApplyChanges(before: UserMap, changes: UserChanges): (r: UserMap)
    ensures r.Keys == (before.Keys - changes.deleted) + changes.added.Keys + changes.modified.Keys
  {
    var kept := map id | id in before && id !in changes.deleted :: before[id];
    kept + changes.added + changes.modified
  }

  /** Replaying the diff of two maps onto the first gives the second. */
  lemma {:induction false} DiffRoundTrip(before: UserMap, after: UserMap)
    ensures ApplyChanges(before, UserDiff(before, after)) == after
  {
    var d := UserDiff(before, after);
    var r := ApplyChanges(before, d);
    assert r.Keys == after.Keys;
    forall id | id in after
      ensures r[id] == after[id]
    {
      if id in d.modified {
      } else if id in d.added {
      } else {
        assert id in before && before[id] == after[id];
      }
    }
  }

  /** The diff is empty exactly when the two maps are equal. */
  lemma {:induction false} DiffEmptyIff(before: UserMap, after: UserMap)
    ensures UserDiff(before, after).IsEmpty() <==> before == after
  {
    var d := UserDiff(before, after);
    if d.IsEmpty() {
      DiffRoundTrip(before, after);
      assert d.added == map[] && d.modified == map[] && d.deleted == {};
      assert ApplyChanges(before, d) == before;
    }
  }

  /** What a modification event leads to. */
  datatype Reaction = Ignored | UsersChanged | ChannelsChanged

  /** `os.path.basename` with `/` as separator: the part after the last slash. */
  function Basename(path: string): (r: string)
    ensures '/' !in r
    ensures |r| <= |path| && r == path[|path| - |r|..]
    ensures |r| < |path| ==> path[|path| - |r| - 1] == '/'
  {
    if |path| == 0 || path[|path| - 1] == '/' then ""
    else Basename(path[..|path| - 1]) + [path[|path| - 1]]
  }

  /** A slash-free name is its own basename. */
  lemma BasenameOfName(name: string)
    requires '/' !in name
    ensures Basename(name) == name
  {
  }

  /** Whatever precedes a slash does not change the basename of a slash-free name. */
  lemma BasenameAfterSlash(path: string, name: string)
    requires '/' !in name
    requires |path| > |name| && path[|path| - |name| - 1..] == "/" + name
    ensures Basename(path) == name
  {
    var r := Basename(path);
    var cut := |path| - |name| - 1;
    assert path[cut] == path[cut..][0] == '/';
  }

  /** A basename that is not the whole path comes right after a slash. */
  lemma BasenameShape(path: string)
    ensures var r := Basename(path);
      r == path || (|path| > |r| && path[|path| - |r| - 1..] == "/" + r)
  {
    var r := Basename(path);
    if r != path {
      var cut := |path| - |r| - 1;
      assert path[cut..] == [path[cut]] + path[cut + 1..];
    }
  }

  /** A path is a bare name or ends in "/" plus the name. */
  predicate NamesFile(path: string, name: string) {
    path == name || (|path| > |name| && path[|path| - |name| - 1..] == "/" + name)
  }

  /** A path has a given slash-free basename exactly when it is that name or ends in `/` plus that name. */
  lemma BasenameIs(path: string, name: string)
    requires '/' !in name
    ensures Basename(path) == name <==> NamesFile(path, name)
  {
    if path == name {
      BasenameOfName(name);
    } else if NamesFile(path, name) {
      BasenameAfterSlash(path, name);
    } else {
      BasenameShape(path);
    }
  }

  const UsersFile := "users.json"
  const ChannelsFile := "channels.json"

  /** Neither watched file name holds a slash. */
  lemma FileNamesHaveNoSlash()
    ensures '/' !in UsersFile && '/' !in ChannelsFile
  {
    assert forall i :: 0 <= i < |UsersFile| ==> UsersFile[i] != '/';
    assert forall i :: 0 <= i < |ChannelsFile| ==> ChannelsFile[i] != '/';
  }

  /** `on_modified`: ignores directories, then dispatches on the file's basename. */
  function OnModified(isDirectory: bool, srcPath: string): (r: Reaction)
    ensures isDirectory ==> r == Ignored
    ensures r == UsersChanged <==> !isDirectory && Basename(srcPath) == UsersFile
    ensures r == ChannelsChanged <==> !isDirectory && Basename(srcPath) == ChannelsFile
  {
    if isDirectory then Ignored
    else
      var filename := Basename(srcPath);
      if filename == UsersFile then UsersChanged
      else if filename == ChannelsFile then ChannelsChanged
      else Ignored
  }

  /** The users handler runs for the file itself and for any path ending in `/users.json`, and never for a directory. */
  lemma OnModifiedUsers(isDirectory: bool, srcPath: string)
    ensures OnModified(isDirectory, srcPath) == UsersChanged <==> !isDirectory && NamesFile(srcPath, UsersFile)
  {
    FileNamesHaveNoSlash();
    BasenameIs(srcPath, UsersFile);
  }

  /** The channels handler runs for the file itself and for any path ending in `/channels.json`, and never for a directory. */
  lemma OnModifiedChannels(isDirectory: bool, srcPath: string)
    ensures OnModified(isDirectory, srcPath) == ChannelsChanged <==> !isDirectory && NamesFile(srcPath, ChannelsFile)
  {
    FileNamesHaveNoSlash();
    BasenameIs(srcPath, ChannelsFile);
  }

  /** `FileWatcher`: the two caches it keeps between events. */
  class FileWatcher {
    var usersCache: UserMap
    var channelsCache: seq<Channel>

    /** `__init__` with `_load_initial_state`: a file that cannot be read or parsed leaves the empty default. */
    constructor (usersFile: Loaded<UserMap>, channelsFile: Loaded<seq<Channel>>)
      ensures usersCache == ValueOr(usersFile, map[])
      ensures channelsCache == ValueOr(channelsFile, [])
    {
      usersCache := map[];
      channelsCache := [];
      if usersFile.Loaded? {
        usersCache := usersFile.value;
      }
      if channelsFile.Loaded? {
        channelsCache := channelsFile.value;
      }
    }

    /** `_find_user_changes`: one pass over the new map for added and modified users, one over the old map for deleted ones. */
    method FindUserChanges(before: UserMap, after: UserMap) returns (changes: UserChanges)
      ensures changes == UserDiff(before, after)
    {
      var added, modified := AddedAndModified(before, after);
      var deleted := Deleted(before, after);
      changes := UserChanges(added, modified, deleted);
    }

    /** The first loop of `_find_user_changes`, over the new map. */
    method AddedAndModified(before: UserMap, after: UserMap) returns (added: UserMap, modified: UserMap)
      ensures added == UserDiff(before, after).added
      ensures modified == UserDiff(before, after).modified
    {
      added, modified := map[], map[];
      var todo := after.Keys;
      while todo != {}
        invariant todo <= after.Keys
        invariant forall id :: id in added <==> id in after && id !in todo && id !in before
        invariant forall id :: id in added ==> added[id] == after[id]
        invariant forall id :: id in modified <==> id in after && id !in todo && id in before && before[id] != after[id]
        invariant forall id :: id in modified ==> modified[id] == after[id]
        decreases |todo|
      {
        var id :| id in todo;
        if id !in before {
          added := added[id := after[id]];
        } else if before[id] != after[id] {
          modified := modified[id := after[id]];
        }
        todo := todo - {id};
      }
    }

    /** The second loop of `_find_user_changes`, over the old map. */
    method Deleted(before: UserMap, after: UserMap) returns (deleted: set<string>)
      ensures deleted == UserDiff(before, after).deleted
    {
      deleted := {};
      var todo := before.Keys;
      while todo != {}
        invariant todo <= before.Keys
        invariant forall id :: id in deleted <==> id in before && id !in todo && id !in after
        decreases |todo|
      {
        var id :| id in todo;
        if id !in after {
          deleted := deleted + {id};
        }
        todo := todo - {id};
      }
    }

    /**
     * `_handle_users_change`: on a readable file, broadcasts a `user_edit` frame when
     * something changed and replaces the cache; when reading fails nothing happens.
     */
    method HandleUsersChange(usersFile: Loaded<UserMap>) returns (broadcast: Option<UserChanges>)
      modifies this
      ensures usersFile.Loaded? ==> usersCache == usersFile.value
      ensures !usersFile.Loaded? ==> usersCache == old(usersCache) && broadcast.None?
      ensures broadcast.Some? <==> usersFile.Loaded? && usersFile.value != old(usersCache)
      ensures broadcast.Some? ==> broadcast.value == UserDiff(old(usersCache), usersFile.value)
      ensures channelsCache == old(channelsCache)
    {
      broadcast := None;
      if usersFile.Loaded? {
        var newUsers := usersFile.value;
        var changes := FindUserChanges(usersCache, newUsers);
        DiffEmptyIff(usersCache, newUsers);
        if !changes.IsEmpty() {
          broadcast := Some(changes);
        }
        usersCache := newUsers;
      }
    }

    /**
     * `_handle_channels_change`: on a readable file, broadcasts the whole new list as a
     * `channels_get` frame; the channel cache is never updated.
     */
    method HandleChannelsChange(channelsFile: Loaded<seq<Channel>>) returns (broadcast: Option<seq<Channel>>)
      ensures broadcast.Some? <==> channelsFile.Loaded?
      ensures broadcast.Some? ==> broadcast.value == channelsFile.value
    {
      broadcast := None;
      if channelsFile.Loaded? {
        broadcast := Some(channelsFile.value);
      }
    }
  }
}
