/**
 * `capture_user_details`: choose the users (targeted, chunked by username
 * prefix, or one batch), discover agent permissions when none are
 * configured, and write the CSV. The SOAP calls are parameters: functions
 * answering `getUserInfo(name)` and `getUsersInfo(pattern)`, and the user
 * list of the unfiltered `getUsersInfo()`.
 */
module Capture {
  import opened Common
  import opened Users
  import opened ExportSchema
  import opened Prefixes
  import opened ExportFile

  // ---------------------------------------------------------------------
  // Chunked retrieval
  // ---------------------------------------------------------------------

  /** The answer to `getUsersInfo(pattern)`: the users, or the fault it raised. */
  datatype Fetch = Fetched(users: seq<User>) | FetchFailed(message: string)

  /**
   * The users the first `n` prefix queries retrieved, in prefix order; a
   * query that raised contributes none. The SOAP call is the parameter
   * `getUsersInfo`, applied to each prefix's pattern.
   */
  function ChunkUsers(prefixes: seq<string>, numeric: bool, getUsersInfo: string -> Fetch, n: nat): seq<User>
    requires n <= |prefixes|
  {
    if n == 0 then []
    else
      ChunkUsers(prefixes, numeric, getUsersInfo, n - 1)
      + match getUsersInfo(Pattern(prefixes[n - 1], numeric))
        case Fetched(us) => us
        case FetchFailed(_) => []
  }

  /** Nothing is retrieved exactly when every query raised or came back empty. */
  lemma {:induction false} ChunkUsersEmpty(prefixes: seq<string>, numeric: bool, getUsersInfo: string -> Fetch, n: nat)
    requires n <= |prefixes|
    ensures ChunkUsers(prefixes, numeric, getUsersInfo, n) == [] <==>
              forall i :: 0 <= i < n ==> match getUsersInfo(Pattern(prefixes[i], numeric))
                                          case Fetched(us) => us == []
                                          case FetchFailed(_) => true
  {
    if n > 0 {
      ChunkUsersEmpty(prefixes, numeric, getUsersInfo, n - 1);
    }
  }

  /** A user is exported exactly when some prefix query returned it. */
  lemma {:induction false} ChunkUsersMember(prefixes: seq<string>, numeric: bool, getUsersInfo: string -> Fetch, n: nat, u: User)
    requires n <= |prefixes|
    ensures u in ChunkUsers(prefixes, numeric, getUsersInfo, n) <==>
            exists i :: 0 <= i < n && getUsersInfo(Pattern(prefixes[i], numeric)).Fetched?
                        && u in getUsersInfo(Pattern(prefixes[i], numeric)).users
  {
    if n > 0 {
      ChunkUsersMember(prefixes, numeric, getUsersInfo, n - 1, u);
    }
  }

  /**
   * The prefix loop of chunked mode. Each prefix is queried with its pattern;
   * a failed or empty chunk is skipped; the first non-empty chunk fixes the
   * columns (from its first user) and rewrites the file with a header, later
   * chunks are appended. The result is the export of all retrieved users.
   */
  method CaptureChunks(prefixes: seq<string>, numeric: bool, getUsersInfo: string -> Fetch, general: seq<string>,
                       tp: TargetPermissions, includeMedia: bool, file: CsvFile)
    returns (out: CsvFile, total: nat)
    ensures total == |ChunkUsers(prefixes, numeric, getUsersInfo, |prefixes|)|
    ensures out == ExportedFile(ChunkUsers(prefixes, numeric, getUsersInfo, |prefixes|), general, tp, includeMedia, file)
  {
    var first := true;
    var fieldnames: seq<string> := [];
    ghost var got: seq<User> := [];
    out, total := file, 0;
    var i := 0;
    while i < |prefixes|
      invariant 0 <= i <= |prefixes|
      invariant got == ChunkUsers(prefixes, numeric, getUsersInfo, i)
      invariant total == |got|
      invariant Exported(got, first, fieldnames, out, general, tp, includeMedia, file)
    {
      got, out, first, fieldnames, total :=
        NextPrefix(prefixes, numeric, getUsersInfo, general, tp, includeMedia, file, i, got, out, first, fieldnames, total);
      i := i + 1;
    }
  }

  /** The body of the prefix loop for prefix `i`: query its pattern and take the answer. */
  method NextPrefix(prefixes: seq<string>, numeric: bool, getUsersInfo: string -> Fetch, general: seq<string>,
                    tp: TargetPermissions, includeMedia: bool, ghost file: CsvFile, i: nat,
                    ghost got: seq<User>, out: CsvFile, first: bool, fieldnames: seq<string>, total: nat)
    returns (ghost got': seq<User>, out': CsvFile, first': bool, fieldnames': seq<string>, total': nat)
    requires i < |prefixes|
    requires got == ChunkUsers(prefixes, numeric, getUsersInfo, i) && total == |got|
    requires Exported(got, first, fieldnames, out, general, tp, includeMedia, file)
    ensures got' == ChunkUsers(prefixes, numeric, getUsersInfo, i + 1) && total' == |got'|
    ensures Exported(got', first', fieldnames', out', general, tp, includeMedia, file)
  {
    var pattern := Pattern(prefixes[i], numeric);
    var answer := getUsersInfo(pattern);
    var added;
    out', first', fieldnames', added := TakeChunk(got, answer, first, fieldnames, general, tp, includeMedia, file, out);
    got' := got + (if answer.Fetched? then answer.users else []);
    total' := total + added;
  }

  /**
   * The state of the prefix loop after retrieving `got`: the columns are
   * fixed once a user has been seen, and the file is the export of `got`.
   */
  ghost predicate Exported(got: seq<User>, first: bool, fieldnames: seq<string>, out: CsvFile,
                           general: seq<string>, tp: TargetPermissions, includeMedia: bool, file: CsvFile) {
    && (first <==> got == [])
    && (!first ==> fieldnames == Fieldnames(got[0], general, tp, includeMedia))
    && out == ExportedFile(got, general, tp, includeMedia, file)
  }

  /** One answer of the prefix loop: a failed or empty chunk changes nothing. */
  method TakeChunk(ghost before: seq<User>, r: Fetch, first: bool, fieldnames: seq<string>, general: seq<string>,
                   tp: TargetPermissions, includeMedia: bool, ghost file: CsvFile, out: CsvFile)
    returns (out': CsvFile, first': bool, fieldnames': seq<string>, added: nat)
    requires Exported(before, first, fieldnames, out, general, tp, includeMedia, file)
    ensures var after := before + (if r.Fetched? then r.users else []);
            Exported(after, first', fieldnames', out', general, tp, includeMedia, file) && |after| == |before| + added
  {
    out', first', fieldnames', added := out, first, fieldnames, 0;
    match r {
      case FetchFailed(_) =>
        assert before + [] == before;
      case Fetched(chunk) =>
        if chunk == [] {
          assert before + [] == before;
        } else if first {
          out', fieldnames' := WriteFresh(chunk, general, tp, includeMedia, out);
          assert before + chunk == chunk;
          first', added := false, |chunk|;
        } else {
          out' := AppendChunk(before, chunk, fieldnames, general, tp, includeMedia, file, out);
          assert (before + chunk)[0] == before[0];
          added := |chunk|;
        }
    }
  }

  /**
   * Compute the columns from the first user and rewrite the file with them:
   * the first non-empty chunk, or the whole single batch.
   */
  method WriteFresh(chunk: seq<User>, general: seq<string>, tp: TargetPermissions, includeMedia: bool, out: CsvFile)
    returns (out': CsvFile, fieldnames: seq<string>)
    requires chunk != []
    ensures fieldnames == Fieldnames(chunk[0], general, tp, includeMedia)
    ensures out' == ExportedFile(chunk, general, tp, includeMedia, out)
  {
    fieldnames := ComputeFieldnames(chunk[0], general, tp, includeMedia);
    out' := WriteUserChunk(chunk, fieldnames, general, tp, includeMedia, out, false);
  }

  /** A later non-empty chunk: append its records under the columns already fixed. */
  method AppendChunk(ghost before: seq<User>, chunk: seq<User>, fieldnames: seq<string>, general: seq<string>,
                     tp: TargetPermissions, includeMedia: bool, ghost file: CsvFile, out: CsvFile)
    returns (out': CsvFile)
    requires before != [] && chunk != []
    requires fieldnames == Fieldnames(before[0], general, tp, includeMedia)
    requires out == ExportedFile(before, general, tp, includeMedia, file)
    ensures out' == ExportedFile(before + chunk, general, tp, includeMedia, file)
  {
    out' := WriteUserChunk(chunk, fieldnames, general, tp, includeMedia, out, true);
    ExportedFileAppend(before, chunk, general, tp, includeMedia, file);
  }

  // ---------------------------------------------------------------------
  // Agent-permission discovery
  // ---------------------------------------------------------------------

  /** The non-empty types of a permission list, in order (`if not p_type: continue`). */
  function PermissionTypes(ps: seq<Permission>): seq<string> {
    if ps == [] then []
    else
      var p := ps[|ps| - 1];
      PermissionTypes(ps[..|ps| - 1]) + (if p.ptype.Some? && p.ptype.value != "" then [p.ptype.value] else [])
  }

  /** A type is collected exactly when it is non-empty and some permission carries it. */
  lemma {:induction false} PermissionTypesMember(ps: seq<Permission>, t: string)
    ensures t in PermissionTypes(ps) <==> t != "" && exists k :: 0 <= k < |ps| && ps[k].ptype == Some(t)
    decreases |ps|
  {
    if ps != [] {
      var init := ps[..|ps| - 1];
      PermissionTypesMember(init, t);
      if exists k :: 0 <= k < |init| && init[k].ptype == Some(t) {
        var k :| 0 <= k < |init| && init[k].ptype == Some(t);
        assert ps[k] == init[k];
      }
      if exists k :: 0 <= k < |ps| && ps[k].ptype == Some(t) {
        var k :| 0 <= k < |ps| && ps[k].ptype == Some(t);
        if k < |init| {
          assert init[k] == ps[k];
        }
      }
    }
  }

  /** The permission types of the user's agent role; none without one. */
  function AgentTypes(u: User): seq<string> {
    match RoleOf(u, "agent")
    case Some(rl) => PermissionTypes(rl.permissions)
    case None => []
  }

  /** The agent permission types of every user, user by user. */
  function AllAgentTypes(users: seq<User>): seq<string> {
    Gather(users, AgentTypes)
  }

  /**
   * The discovered permissions: the agent role with each distinct type in
   * order of first appearance, or nothing at all when no user has one
   * (`setdefault` creates the "agent" entry only for a first type).
   */
  function DiscoveredPermissions(users: seq<User>): TargetPermissions {
    var types := AppendNew([], AllAgentTypes(users));
    if types == [] then [] else [("agent", types)]
  }

  /** Every agent permission type of every user is discovered. */
  lemma DiscoveredCovers(users: seq<User>)
    ensures forall i, t :: 0 <= i < |users| && t in AgentTypes(users[i]) ==> t in AppendNew([], AllAgentTypes(users))
  {
    var all := AllAgentTypes(users);
    forall i, t | 0 <= i < |users| && t in AgentTypes(users[i])
      ensures t in AppendNew([], all)
    {
      GatherMember(users, AgentTypes, t);
    }
  }

  /** Discovery requests at most one role, "agent", and each type of it once. */
  lemma DiscoveredShape(users: seq<User>)
    ensures var tp := DiscoveredPermissions(users);
            |tp| <= 1 && (tp != [] ==> tp[0].0 == "agent" && NoDuplicates(tp[0].1))
  {
    AppendNewNoDuplicates([], AllAgentTypes(users));
  }

  /** Discovery requests nothing exactly when no user's agent role has a non-empty type. */
  lemma DiscoveredNothing(users: seq<User>)
    ensures DiscoveredPermissions(users) == [] <==> forall i, t :: 0 <= i < |users| ==> t !in AgentTypes(users[i])
  {
    var all := AllAgentTypes(users);
    var types := AppendNew([], all);
    if types != [] {
      var t := types[0];
      assert t in all;
      GatherMember(users, AgentTypes, t);
      var i :| 0 <= i < |users| && t in AgentTypes(users[i]);
    } else {
      DiscoveredCovers(users);
      forall i, t | 0 <= i < |users|
        ensures t !in AgentTypes(users[i])
      {
        assert t !in types;
      }
    }
  }

  /** The discovered types are exactly the non-empty types some user's agent role carries. */
  lemma DiscoveredTypes(users: seq<User>)
    requires DiscoveredPermissions(users) != []
    ensures var types := DiscoveredPermissions(users)[0].1;
            && "" !in types
            && forall t :: t in types <==> exists i :: 0 <= i < |users| && t in AgentTypes(users[i])
  {
    GatherMember(users, AgentTypes, "");
    forall i | 0 <= i < |users|
      ensures "" !in AgentTypes(users[i])
    {
      if RoleOf(users[i], "agent").Some? {
        PermissionTypesMember(RoleOf(users[i], "agent").value.permissions, "");
      }
    }
    forall t | true
      ensures t in AllAgentTypes(users) <==> exists i :: 0 <= i < |users| && t in AgentTypes(users[i])
    {
      GatherMember(users, AgentTypes, t);
    }
  }

  /** The permission loop for one agent role: append each new non-empty type. */
  method CollectTypes(start: seq<string>, ps: seq<Permission>) returns (types: seq<string>)
    ensures types == AppendNew(start, PermissionTypes(ps))
  {
    types := start;
    var k := 0;
    while k < |ps|
      invariant 0 <= k <= |ps|
      invariant types == AppendNew(start, PermissionTypes(ps[..k]))
    {
      assert ps[..k + 1][..k] == ps[..k];
      var p := ps[k];
      if p.ptype.Some? && p.ptype.value != "" {
        assert PermissionTypes(ps[..k + 1]) == PermissionTypes(ps[..k]) + [p.ptype.value];
        AppendNewSnoc(start, PermissionTypes(ps[..k]), p.ptype.value);
        if p.ptype.value !in types {
          types := types + [p.ptype.value];
        }
      } else {
        assert PermissionTypes(ps[..k + 1]) == PermissionTypes(ps[..k]) + [];
        assert PermissionTypes(ps[..k]) + [] == PermissionTypes(ps[..k]);
      }
      k := k + 1;
    }
    assert ps[..k] == ps;
  }

  /**
   * The role-key loop for one user: only the key "agent" with a role that is
   * not None contributes; the container holds each key once, and a repeated
   * pass over the same role would add nothing.
   */
  method CollectUserTypes(start: seq<string>, u: User) returns (types: seq<string>)
    ensures types == AppendNew(start, AgentTypes(u))
  {
    types := start;
    var j := 0;
    while j < |u.roles|
      invariant 0 <= j <= |u.roles|
      invariant types == if "agent" in Keys(u.roles)[..j] then AppendNew(start, AgentTypes(u)) else start
    {
      assert Keys(u.roles)[..j + 1] == Keys(u.roles)[..j] + [u.roles[j].0];
      if u.roles[j].0 == "agent" {
        assert Keys(u.roles)[j] == "agent";
        var role := RoleOf(u, "agent");
        if role.Some? {
          var seen := "agent" in Keys(u.roles)[..j];
          types := CollectTypes(types, role.value.permissions);
          if seen {
            AppendNewPresent(AppendNew(start, AgentTypes(u)), AgentTypes(u));
          }
        }
      }
      j := j + 1;
    }
    assert Keys(u.roles)[..j] == Keys(u.roles);
  }

  /** Auto-discovery over all users. */
  method DiscoverAgentPermissions(users: seq<User>) returns (tp: TargetPermissions)
    ensures tp == DiscoveredPermissions(users)
  {
    var types: seq<string> := [];
    var i := 0;
    while i < |users|
      invariant 0 <= i <= |users|
      invariant types == AppendNew([], AllAgentTypes(users[..i]))
    {
      assert users[..i + 1][..i] == users[..i];
      AppendNewConcat([], AllAgentTypes(users[..i]), AgentTypes(users[i]));
      types := CollectUserTypes(types, users[i]);
      i := i + 1;
    }
    assert users[..i] == users;
    tp := if types == [] then [] else [("agent", types)];
  }

  // ---------------------------------------------------------------------
  // Single batch and the entry point
  // ---------------------------------------------------------------------

  /** The permissions a single batch uses: the configured ones, or discovered ones when none are. */
  function UsedPermissions(tp: TargetPermissions, users: seq<User>): TargetPermissions {
    if tp == [] then DiscoveredPermissions(users) else tp
  }

  /**
   * The single-batch tail: no users aborts and leaves the file alone;
   * otherwise permissions are discovered if none were configured, the
   * columns are computed from the first user and the file is rewritten.
   */
  method CaptureSingleBatch(users: seq<User>, general: seq<string>, tp: TargetPermissions, includeMedia: bool, file: CsvFile)
    returns (out: CsvFile, used: TargetPermissions)
    ensures users == [] ==> out == file
    ensures used == UsedPermissions(tp, users)
    ensures out == ExportedFile(users, general, used, includeMedia, file)
  {
    if users == [] {
      assert AllAgentTypes(users) == [];
      return file, tp;
    }
    used := tp;
    if used == [] {
      used := DiscoverAgentPermissions(users);
    }
    var fieldnames;
    out, fieldnames := WriteFresh(users, general, used, includeMedia, file);
  }

  /** The users `getUserInfo` returned for the target names, in order; a call that raised is skipped. */
  function Retrieved(names: seq<string>, getUserInfo: string -> Option<User>): (users: seq<User>)
    ensures |users| <= |names|
    ensures forall u :: u in users <==> exists i :: 0 <= i < |names| && getUserInfo(names[i]) == Some(u)
  {
    if names == [] then []
    else
      var init := names[..|names| - 1];
      var answer := getUserInfo(names[|names| - 1]);
      assert forall i :: 0 <= i < |init| ==> init[i] == names[i];
      Retrieved(init, getUserInfo) + (if answer.Some? then [answer.value] else [])
  }

  datatype CaptureConfig = CaptureConfig(
    general: seq<string>,
    permissions: TargetPermissions,
    includeMedia: bool,
    bigDomain: bool,
    characters: string,
    numericPrefixes: bool,
    width: nat,
    start: int)

  /** Chunked mode runs only without target users, in big-domain mode, with explicit permissions. */
  predicate ChunkMode(cfg: CaptureConfig, targetUsers: seq<string>) {
    targetUsers == [] && cfg.bigDomain && cfg.permissions != []
  }

  /** The prefixes chunked mode enumerates; None when the numeric start is out of range. */
  function ChunkPrefixes(cfg: CaptureConfig): Option<seq<string>> {
    if cfg.numericPrefixes then NumericPrefixes(cfg.start, cfg.width) else Some(CharPrefixes(cfg.characters))
  }

  datatype Outcome =
    | SingleBatch(permissions: TargetPermissions)
    | RangeAborted
    | Chunked(total: nat)

  /**
   * The entry point. The SOAP calls are parameters: `getUserInfo` answers
   * one target name (None when it raised), `getUsersInfo` one pattern, and
   * `everyone` is the answer of the unfiltered `getUsersInfo()`.
   */
  method CaptureUserDetails(cfg: CaptureConfig, targetUsers: seq<string>, getUserInfo: string -> Option<User>,
                            getUsersInfo: string -> Fetch, everyone: seq<User>, file: CsvFile)
    returns (out: CsvFile, outcome: Outcome)
    ensures targetUsers != [] ==>
              var users := Retrieved(targetUsers, getUserInfo);
              && outcome == SingleBatch(UsedPermissions(cfg.permissions, users))
              && out == ExportedFile(users, cfg.general, outcome.permissions, cfg.includeMedia, file)
    ensures ChunkMode(cfg, targetUsers) && ChunkPrefixes(cfg).None? ==> outcome == RangeAborted && out == file
    ensures ChunkMode(cfg, targetUsers) && ChunkPrefixes(cfg).Some? ==>
              var ps := ChunkPrefixes(cfg).value;
              var users := ChunkUsers(ps, cfg.numericPrefixes, getUsersInfo, |ps|);
              && outcome == Chunked(|users|)
              && out == ExportedFile(users, cfg.general, cfg.permissions, cfg.includeMedia, file)
    ensures targetUsers == [] && !ChunkMode(cfg, targetUsers) ==>
              && outcome == SingleBatch(UsedPermissions(cfg.permissions, everyone))
              && out == ExportedFile(everyone, cfg.general, outcome.permissions, cfg.includeMedia, file)
  {
    var users: seq<User>;
    if targetUsers != [] {
      users := [];
      var i := 0;
      while i < |targetUsers|
        invariant 0 <= i <= |targetUsers|
        invariant users == Retrieved(targetUsers[..i], getUserInfo)
      {
        assert targetUsers[..i + 1][..i] == targetUsers[..i];
        var answer := getUserInfo(targetUsers[i]);
        if answer.Some? {
          users := users + [answer.value];
        }
        i := i + 1;
      }
      assert targetUsers[..i] == targetUsers;
    } else {
      if ChunkMode(cfg, targetUsers) {
        var prefixes := ChunkPrefixes(cfg);
        if prefixes.None? {
          return file, RangeAborted;
        }
        var total;
        out, total := CaptureChunks(prefixes.value, cfg.numericPrefixes, getUsersInfo, cfg.general,
                                    cfg.permissions, cfg.includeMedia, file);
        return out, Chunked(total);
      }
      users := everyone;
    }
    var used;
    out, used := CaptureSingleBatch(users, cfg.general, cfg.permissions, cfg.includeMedia, file);
    outcome := SingleBatch(used);
  }
}
