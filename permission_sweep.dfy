/**
 * The per-user permission sweep of `migration_user_prep.py`: for every
 * active user, visit the supervisor, agent and admin roles in that order,
 * turn each targeted permission that is True to False and record its type;
 * a missing role ends the user's processing. A user with recorded types is
 * submitted with `updateUser` unless in dry-run mode, and gets an audit line
 * `domain|userName|[types]` either way.
 *
 * A permission whose type or value is None never matches: `None == "..."`
 * and `None == True` are false.
 */
module PermissionSweep {
  import opened Common
  import opened Users

  /** The types turned off in each role. */
  const SupervisorTargets: seq<string> := ["CanRunJavaClient", "CanUseSupervisorSoapApi"]
  const AgentTargets: seq<string> := ["CanRunJavaClient"]
  const AdminTargets: seq<string> := ["CanUseAdminSoapApi"]

  /** A permission the sweep turns off: one of the role's target types, currently True. */
  predicate Targeted(p: Permission, targets: seq<string>) {
    p.ptype.Some? && p.ptype.value in targets && p.value == Some(true)
  }

  /** One role's permission list after the sweep: each targeted permission set to False, the rest as they were. */
  function Flip(ps: seq<Permission>, targets: seq<string>): (r: seq<Permission>)
    ensures |r| == |ps|
  {
    seq(|ps|, k requires 0 <= k < |ps| => if Targeted(ps[k], targets) then ps[k].(value := Some(false)) else ps[k])
  }

  /** The types recorded for one role's permission list, in list order. */
  function FlippedTypes(ps: seq<Permission>, targets: seq<string>): seq<string> {
    if ps == [] then []
    else
      var p := ps[|ps| - 1];
      FlippedTypes(ps[..|ps| - 1], targets) + (if Targeted(p, targets) then [p.ptype.value] else [])
  }

  /**
   * Only targeted permissions change, and only their value, to False;
   * afterwards no permission of the list is targeted.
   */
  lemma FlipChangesOnlyTargets(ps: seq<Permission>, targets: seq<string>)
    ensures forall k :: 0 <= k < |ps| ==>
              && (Flip(ps, targets)[k] != ps[k] <==> Targeted(ps[k], targets))
              && Flip(ps, targets)[k].ptype == ps[k].ptype
              && !Targeted(Flip(ps, targets)[k], targets)
  {
  }

  /** A second sweep of the same list changes nothing and records nothing. */
  lemma {:induction false} FlipIdempotent(ps: seq<Permission>, targets: seq<string>)
    ensures Flip(Flip(ps, targets), targets) == Flip(ps, targets)
    ensures FlippedTypes(Flip(ps, targets), targets) == []
  {
    NothingTargetedRecordsNothing(Flip(ps, targets), targets);
  }

  /** A list with no targeted permission records nothing. */
  lemma {:induction false} NothingTargetedRecordsNothing(ps: seq<Permission>, targets: seq<string>)
    requires forall k :: 0 <= k < |ps| ==> !Targeted(ps[k], targets)
    ensures FlippedTypes(ps, targets) == []
    decreases |ps|
  {
    if ps != [] {
      NothingTargetedRecordsNothing(ps[..|ps| - 1], targets);
    }
  }

  /**
   * The recorded types are exactly the types of the targeted permissions,
   * one entry per targeted permission; nothing is recorded exactly when
   * nothing changes.
   */
  lemma {:induction false} FlippedTypesRecord(ps: seq<Permission>, targets: seq<string>)
    ensures |FlippedTypes(ps, targets)| <= |ps|
    ensures forall t :: t in FlippedTypes(ps, targets) ==> t in targets
    ensures FlippedTypes(ps, targets) == [] <==> Flip(ps, targets) == ps
    decreases |ps|
  {
    if ps != [] {
      var init := ps[..|ps| - 1];
      FlippedTypesRecord(init, targets);
      var last := ps[|ps| - 1];
      if FlippedTypes(ps, targets) == [] {
        assert FlippedTypes(init, targets) == [] && !Targeted(last, targets);
        forall k | 0 <= k < |ps|
          ensures Flip(ps, targets)[k] == ps[k]
        {
          if k < |init| {
            assert Flip(init, targets)[k] == Flip(ps, targets)[k];
          }
        }
      } else if Targeted(last, targets) {
        assert Flip(ps, targets)[|ps| - 1] != last;
      } else {
        var k :| 0 <= k < |init| && Flip(init, targets)[k] != init[k];
        assert Flip(ps, targets)[k] != ps[k];
      }
    }
  }

  /** The positions of the permissions the sweep turns off. */
  function TargetedPositions(ps: seq<Permission>, targets: seq<string>): set<int> {
    set k | 0 <= k < |ps| && Targeted(ps[k], targets)
  }

  /** One type is recorded per targeted permission. */
  lemma {:induction false} FlippedTypesPerTarget(ps: seq<Permission>, targets: seq<string>)
    ensures |FlippedTypes(ps, targets)| == |TargetedPositions(ps, targets)|
    decreases |ps|
  {
    if ps != [] {
      var init := ps[..|ps| - 1];
      var n := |ps| - 1;
      FlippedTypesPerTarget(init, targets);
      if Targeted(ps[n], targets) {
        assert TargetedPositions(ps, targets) == TargetedPositions(init, targets) + {n};
      } else {
        assert TargetedPositions(ps, targets) == TargetedPositions(init, targets);
      }
    }
  }

  /** The modified list has one entry per permission the sweep changes. */
  lemma FlippedTypesCount(ps: seq<Permission>, targets: seq<string>)
    ensures |FlippedTypes(ps, targets)| == |set k | 0 <= k < |ps| && Flip(ps, targets)[k] != ps[k]|
  {
    FlippedTypesPerTarget(ps, targets);
    FlipChangesOnlyTargets(ps, targets);
    assert (set k | 0 <= k < |ps| && Flip(ps, targets)[k] != ps[k]) == TargetedPositions(ps, targets);
  }

  /** The list sweep: flip in place and record, permission by permission. */
  method FlipRole(ps: seq<Permission>, targets: seq<string>) returns (flipped: seq<Permission>, recorded: seq<string>)
    ensures flipped == Flip(ps, targets)
    ensures recorded == FlippedTypes(ps, targets)
  {
    flipped, recorded := ps, [];
    var k := 0;
    while k < |ps|
      invariant 0 <= k <= |ps| && |flipped| == |ps|
      invariant forall j :: 0 <= j < |ps| ==> flipped[j] == if j < k then Flip(ps, targets)[j] else ps[j]
      invariant recorded == FlippedTypes(ps[..k], targets)
    {
      assert ps[..k + 1][..k] == ps[..k];
      var p := ps[k];
      if p.ptype.Some? && p.ptype.value in targets && p.value == Some(true) {
        flipped := flipped[k := p.(value := Some(false))];
        recorded := recorded + [p.ptype.value];
      }
      k := k + 1;
    }
    assert ps[..k] == ps;
  }

  // ---------------------------------------------------------------------
  // One user
  // ---------------------------------------------------------------------

  /** The user with role `name` replaced (the role is already there, so it keeps its place). */
  function WithRole(u: User, name: string, role: Role): User {
    u.(roles := Set(u.roles, name, Some(role)))
  }

  /** Replacing one role leaves every other role as it was. */
  lemma RoleOfWithRole(u: User, name: string, role: Role, other: string)
    ensures RoleOf(WithRole(u, name, role), other) == if other == name then Some(role) else RoleOf(u, other)
  {
  }

  /** Why processing of a user ended: inactive, a role it lacks, or all three roles visited. */
  datatype Stop = Inactive | MissingRole(role: string) | Visited

  /** The user as the sweep leaves it, the types it recorded, and why it stopped. */
  datatype SweepResult = SweepResult(user: User, modified: seq<string>, stop: Stop)

  /** Sweep one role if the user has it; the types recorded so far are `modified`. */
  function SweepStep(r: SweepResult, name: string, targets: seq<string>): SweepResult {
    if r.stop != Visited then r
    else match RoleOf(r.user, name)
      case None => SweepResult(r.user, r.modified, MissingRole(name))
      case Some(role) =>
        SweepResult(WithRole(r.user, name, Role(Flip(role.permissions, targets))),
                    r.modified + FlippedTypes(role.permissions, targets), Visited)
  }

  /**
   * The sweep of one user: an inactive user is left alone; otherwise the
   * supervisor, agent and admin roles are swept in that order, and the first
   * missing one stops the sweep with the earlier roles already flipped.
   */
  function SweepUser(u: User): SweepResult {
    if !u.generalInfo.active then SweepResult(u, [], Inactive)
    else
      var r0 := SweepResult(u, [], Visited);
      var r1 := SweepStep(r0, "supervisor", SupervisorTargets);
      var r2 := SweepStep(r1, "agent", AgentTargets);
      SweepStep(r2, "admin", AdminTargets)
  }

  /**
   * A user who is visited through all three roles ends with no targeted
   * permission still True in any of them, and the modified list is the
   * supervisor, agent and admin records in that order.
   */
  lemma SweepUserVisited(u: User)
    requires SweepUser(u).stop == Visited
    ensures var r := SweepUser(u);
            && RoleOf(u, "supervisor").Some? && RoleOf(u, "agent").Some? && RoleOf(u, "admin").Some?
            && r.modified == FlippedTypes(RoleOf(u, "supervisor").value.permissions, SupervisorTargets)
                             + FlippedTypes(RoleOf(u, "agent").value.permissions, AgentTargets)
                             + FlippedTypes(RoleOf(u, "admin").value.permissions, AdminTargets)
            && RoleOf(r.user, "supervisor") == Some(Role(Flip(RoleOf(u, "supervisor").value.permissions, SupervisorTargets)))
            && RoleOf(r.user, "agent") == Some(Role(Flip(RoleOf(u, "agent").value.permissions, AgentTargets)))
            && RoleOf(r.user, "admin") == Some(Role(Flip(RoleOf(u, "admin").value.permissions, AdminTargets)))
  {
    var sup := RoleOf(u, "supervisor").value;
    var u1 := WithRole(u, "supervisor", Role(Flip(sup.permissions, SupervisorTargets)));
    RoleOfWithRole(u, "supervisor", Role(Flip(sup.permissions, SupervisorTargets)), "agent");
    RoleOfWithRole(u, "supervisor", Role(Flip(sup.permissions, SupervisorTargets)), "admin");
    var agent := RoleOf(u1, "agent").value;
    var u2 := WithRole(u1, "agent", Role(Flip(agent.permissions, AgentTargets)));
    RoleOfWithRole(u1, "agent", Role(Flip(agent.permissions, AgentTargets)), "supervisor");
    RoleOfWithRole(u1, "agent", Role(Flip(agent.permissions, AgentTargets)), "admin");
    var admin := RoleOf(u2, "admin").value;
    RoleOfWithRole(u2, "admin", Role(Flip(admin.permissions, AdminTargets)), "supervisor");
    RoleOfWithRole(u2, "admin", Role(Flip(admin.permissions, AdminTargets)), "agent");
    assert [] + FlippedTypes(sup.permissions, SupervisorTargets) == FlippedTypes(sup.permissions, SupervisorTargets);
  }

  /** The sweep touches no role other than supervisor, agent and admin, and no user field other than the roles. */
  lemma SweepUserTouchesOnlyTargets(u: User, other: string)
    requires other != "supervisor" && other != "agent" && other != "admin"
    ensures RoleOf(SweepUser(u).user, other) == RoleOf(u, other)
    ensures SweepUser(u).user.generalInfo == u.generalInfo
    ensures SweepUser(u).user.errorMessage == u.errorMessage
  {
    if u.generalInfo.active {
      var r1 := SweepStep(SweepResult(u, [], Visited), "supervisor", SupervisorTargets);
      var r2 := SweepStep(r1, "agent", AgentTargets);
      if RoleOf(u, "supervisor").Some? {
        RoleOfWithRole(u, "supervisor", Role(Flip(RoleOf(u, "supervisor").value.permissions, SupervisorTargets)), other);
      }
      if r1.stop == Visited && RoleOf(r1.user, "agent").Some? {
        RoleOfWithRole(r1.user, "agent", Role(Flip(RoleOf(r1.user, "agent").value.permissions, AgentTargets)), other);
      }
      if r2.stop == Visited && RoleOf(r2.user, "admin").Some? {
        RoleOfWithRole(r2.user, "admin", Role(Flip(RoleOf(r2.user, "admin").value.permissions, AdminTargets)), other);
      }
    }
  }

  /** Idempotence: sweeping a fully visited user again visits it again, records nothing and changes nothing. */
  lemma SweepUserIdempotent(u: User)
    requires SweepUser(u).stop == Visited
    ensures var r := SweepUser(u);
            SweepUser(r.user) == SweepResult(r.user, [], Visited)
  {
    var r := SweepUser(u);
    SweepUserVisited(u);
    SweepUserTouchesOnlyTargets(u, "");
    var sup := RoleOf(r.user, "supervisor").value;
    var agent := RoleOf(r.user, "agent").value;
    var admin := RoleOf(r.user, "admin").value;
    FlipIdempotent(RoleOf(u, "supervisor").value.permissions, SupervisorTargets);
    FlipIdempotent(RoleOf(u, "agent").value.permissions, AgentTargets);
    FlipIdempotent(RoleOf(u, "admin").value.permissions, AdminTargets);
    var s := r.user;
    SetPresent(s.roles, "supervisor", Some(sup));
    var s1 := WithRole(s, "supervisor", Role(Flip(sup.permissions, SupervisorTargets)));
    assert s1 == s;
    SetPresent(s.roles, "agent", Some(agent));
    var s2 := WithRole(s1, "agent", Role(Flip(agent.permissions, AgentTargets)));
    assert s2 == s;
    SetPresent(s.roles, "admin", Some(admin));
    var s3 := WithRole(s2, "admin", Role(Flip(admin.permissions, AdminTargets)));
    assert s3 == s;
    var none: seq<string> := [];
    assert none + none + none == none;
  }

  /** Setting a key to the value it already holds leaves the dictionary as it is. */
  lemma {:induction false} SetPresent<K(!new), V>(d: seq<(K, V)>, k: K, v: V)
    requires Get(d, k) == Some(v)
    ensures Set(d, k, v) == d
    decreases |d|
  {
    if d[0].0 != k {
      SetPresent(d[1..], k, v);
      assert [d[0]] + d[1..] == d;
    } else {
      assert [(k, v)] + d[1..] == d;
    }
  }

  /** The sweep of one user, role by role. */
  method SweepOne(u: User) returns (r: SweepResult)
    ensures r == SweepUser(u)
  {
    if !u.generalInfo.active {
      return SweepResult(u, [], Inactive);
    }
    var user := u;
    var modified: seq<string> := [];
    var sup := RoleOf(user, "supervisor");
    if sup.None? {
      return SweepResult(user, modified, MissingRole("supervisor"));
    }
    var flipped, recorded := FlipRole(sup.value.permissions, SupervisorTargets);
    user, modified := WithRole(user, "supervisor", Role(flipped)), modified + recorded;
    var agent := RoleOf(user, "agent");
    if agent.None? {
      return SweepResult(user, modified, MissingRole("agent"));
    }
    flipped, recorded := FlipRole(agent.value.permissions, AgentTargets);
    user, modified := WithRole(user, "agent", Role(flipped)), modified + recorded;
    var admin := RoleOf(user, "admin");
    if admin.None? {
      return SweepResult(user, modified, MissingRole("admin"));
    }
    flipped, recorded := FlipRole(admin.value.permissions, AdminTargets);
    user, modified := WithRole(user, "admin", Role(flipped)), modified + recorded;
    r := SweepResult(user, modified, Visited);
  }

  // ---------------------------------------------------------------------
  // Submission and audit
  // ---------------------------------------------------------------------

  /** Python's `repr` of a list of strings without quotes in them: `['a', 'b']`. */
  function ListRepr(xs: seq<string>): (r: string)
    ensures |r| >= 2 && r[0] == '[' && r[|r| - 1] == ']'
    ensures r == "[]" <==> xs == []
  {
    "[" + Items(xs) + "]"
  }

  /** The items of the list, each quoted, separated by ", ". */
  function Items(xs: seq<string>): (r: string)
    ensures r == [] <==> xs == []
  {
    if xs == [] then ""
    else if |xs| == 1 then "'" + xs[0] + "'"
    else Items(xs[..|xs| - 1]) + ", '" + xs[|xs| - 1] + "'"
  }

  /** Besides quotes, commas and spaces, the items hold only characters of the list's strings. */
  lemma {:induction false} ItemsChars(xs: seq<string>)
    ensures forall c :: c in Items(xs) ==> c in "', " || exists k :: 0 <= k < |xs| && c in xs[k]
    decreases |xs|
  {
    if |xs| > 1 {
      var init := xs[..|xs| - 1];
      ItemsChars(init);
      assert forall k :: 0 <= k < |init| ==> init[k] == xs[k];
    }
  }

  /**
   * The audit line `domain|userName|[types]`, newline-terminated: one line
   * per user as long as no domain, name or type holds a newline.
   */
  function AuditLine(domain: string, userName: string, modified: seq<string>): (r: string)
    ensures |r| > |domain| + 1 && r[..|domain| + 1] == domain + "|" && r[|r| - 1] == '\n'
    ensures '\n' !in domain && '\n' !in userName && (forall k :: 0 <= k < |modified| ==> '\n' !in modified[k])
            ==> '\n' !in r[..|r| - 1]
  {
    ItemsChars(modified);
    var r := domain + "|" + userName + "|" + ListRepr(modified) + "\n";
    assert r[..|r| - 1] == domain + "|" + userName + "|" + ListRepr(modified);
    r
  }

  /** An agent with `CanRunJavaClient` switched off is logged as `acme|jo|['CanRunJavaClient']`. */
  lemma AuditLineExample()
    ensures AuditLine("acme", "jo", ["CanRunJavaClient"]) == "acme|jo|['CanRunJavaClient']\n"
  {
    assert ListRepr(["CanRunJavaClient"]) == "['CanRunJavaClient']";
  }

  /** What the script does for one user after the sweep: the user it submits, and the audit line it appends. */
  datatype Action = Action(update: Option<User>, audit: Option<string>)

  /**
   * Only a user visited through all three roles with something recorded is
   * acted on: submitted unless in dry-run mode, and audited either way.
   */
  function Decide(domain: string, r: SweepResult, dryRun: bool): (a: Action)
    ensures a.audit.Some? <==> r.stop == Visited && r.modified != []
    ensures a.update.Some? <==> a.audit.Some? && !dryRun
    ensures a.update.Some? ==> a.update.value == r.user
  {
    if r.stop == Visited && |r.modified| > 0 then
      Action(if !dryRun then Some(r.user) else None,
             Some(AuditLine(domain, r.user.generalInfo.userName, r.modified)))
    else Action(None, None)
  }

  /** A user who lacks a role is neither submitted nor audited, even with targeted permissions in earlier roles. */
  lemma MissingRoleDropsUser(domain: string, u: User, dryRun: bool)
    requires SweepUser(u).stop.MissingRole?
    ensures Decide(domain, SweepUser(u), dryRun) == Action(None, None)
  {
  }

  /**
   * An active user whose supervisor role has `CanRunJavaClient` on but who
   * has no agent role: the supervisor permission is flipped in memory, yet
   * the user is dropped.
   */
  lemma MissingAgentExample(domain: string, dryRun: bool)
    ensures var on := Permission(Some("CanRunJavaClient"), Some(true));
            var u := User(GeneralInfo("jo", "jo@example.com", true, None, [], None),
                          [("supervisor", Some(Role([on])))], None);
            var r := SweepUser(u);
            && r.stop == MissingRole("agent")
            && r.modified == ["CanRunJavaClient"]
            && Decide(domain, r, dryRun) == Action(None, None)
  {
    var on := Permission(Some("CanRunJavaClient"), Some(true));
    var u := User(GeneralInfo("jo", "jo@example.com", true, None, [], None),
                  [("supervisor", Some(Role([on])))], None);
    assert Targeted(on, SupervisorTargets);
    assert FlippedTypes([on], SupervisorTargets) == ["CanRunJavaClient"] by {
      assert [on][..0] == [];
    }
    var u1 := WithRole(u, "supervisor", Role(Flip([on], SupervisorTargets)));
    assert Keys(u1.roles) == ["supervisor"];
    assert RoleOf(u1, "agent") == None;
  }

  // ---------------------------------------------------------------------
  // All users
  // ---------------------------------------------------------------------

  /** What one user adds to the submitted users. */
  function UpdateOf(domain: string, dryRun: bool, u: User): seq<User> {
    var a := Decide(domain, SweepUser(u), dryRun);
    if a.update.Some? then [a.update.value] else []
  }

  /** What one user adds to the audit file. */
  function AuditOf(domain: string, dryRun: bool, u: User): seq<string> {
    var a := Decide(domain, SweepUser(u), dryRun);
    if a.audit.Some? then [a.audit.value] else []
  }

  function UpdateFn(domain: string, dryRun: bool): User -> seq<User> {
    u => UpdateOf(domain, dryRun, u)
  }

  function AuditFn(domain: string, dryRun: bool): User -> seq<string> {
    u => AuditOf(domain, dryRun, u)
  }

  /** The users submitted and the audit lines appended, user by user in fetch order. */
  function Sweep(users: seq<User>, domain: string, dryRun: bool): (seq<User>, seq<string>) {
    (Gather(users, UpdateFn(domain, dryRun)), Gather(users, AuditFn(domain, dryRun)))
  }

  /** In dry-run mode nothing is submitted; otherwise every audited user is submitted. */
  lemma {:induction false} SweepDryRun(users: seq<User>, domain: string, dryRun: bool)
    ensures dryRun ==> Sweep(users, domain, dryRun).0 == []
    ensures !dryRun ==> |Sweep(users, domain, dryRun).0| == |Sweep(users, domain, dryRun).1|
    decreases |users|
  {
    if users != [] {
      SweepDryRun(users[..|users| - 1], domain, dryRun);
    }
  }

  /** The audit file gets the same lines whether or not the run is dry. */
  lemma {:induction false} SweepAuditIgnoresDryRun(users: seq<User>, domain: string)
    ensures Sweep(users, domain, true).1 == Sweep(users, domain, false).1
    decreases |users|
  {
    if users != [] {
      SweepAuditIgnoresDryRun(users[..|users| - 1], domain);
    }
  }

  /** The sweep of one more user adds that user's submission and audit line. */
  lemma SweepStepUser(users: seq<User>, i: nat, domain: string, dryRun: bool)
    requires i < |users|
    ensures Sweep(users[..i + 1], domain, dryRun)
            == (Sweep(users[..i], domain, dryRun).0 + UpdateOf(domain, dryRun, users[i]),
                Sweep(users[..i], domain, dryRun).1 + AuditOf(domain, dryRun, users[i]))
  {
    assert users[..i + 1][..i] == users[..i];
  }

  /** What `updateUser` did with a submission: accepted it, or raised a fault, which nothing catches. */
  datatype Call = Accepted | Faulted(message: string)

  /** The user is submitted and `updateUser` raises on it. */
  predicate Faults(domain: string, dryRun: bool, updateUser: User -> Call, u: User) {
    var a := Decide(domain, SweepUser(u), dryRun);
    a.update.Some? && updateUser(a.update.value).Faulted?
  }

  /** A user that does not fault extends a run of users that do not. */
  lemma NoFaultStep(users: seq<User>, i: nat, domain: string, dryRun: bool, updateUser: User -> Call)
    requires i < |users|
    requires forall j :: 0 <= j < i ==> !Faults(domain, dryRun, updateUser, users[j])
    requires !Faults(domain, dryRun, updateUser, users[i])
    ensures forall j :: 0 <= j < i + 1 ==> !Faults(domain, dryRun, updateUser, users[j])
  {
  }

  /** A dry run calls `updateUser` for nobody, so it never faults. */
  lemma DryRunNeverFaults(domain: string, updateUser: User -> Call, u: User)
    ensures !Faults(domain, true, updateUser, u)
  {
  }

  /**
   * The handling of one user: sweep it, then submit and audit as decided. A
   * fault from `updateUser` ends the script before the audit line is written.
   */
  method Handle(domain: string, u: User, dryRun: bool, updateUser: User -> Call)
    returns (update: seq<User>, audit: seq<string>, fault: bool)
    ensures fault == Faults(domain, dryRun, updateUser, u)
    ensures !fault ==> update == UpdateOf(domain, dryRun, u) && audit == AuditOf(domain, dryRun, u)
    ensures fault ==> update == [] && audit == []
  {
    var r := SweepOne(u);
    update, audit, fault := [], [], false;
    if r.stop == Visited && |r.modified| > 0 {
      if !dryRun {
        var answer := updateUser(r.user);
        if answer.Faulted? {
          return [], [], true;
        }
        update := [r.user];
      }
      audit := [AuditLine(domain, r.user.generalInfo.userName, r.modified)];
    }
  }

  /**
   * The loop body for user `i`, after users `..i` went through without a
   * fault: either user `i` faults and nothing is added, or its submission and
   * audit line extend the sweep of `users[..i + 1]`.
   */
  method SweepNext(users: seq<User>, i: nat, domain: string, dryRun: bool, updateUser: User -> Call,
                   audit: seq<string>, submitted: seq<User>, audit': seq<string>)
    returns (submitted'': seq<User>, audit'': seq<string>, fault: bool)
    requires i < |users|
    requires forall j :: 0 <= j < i ==> !Faults(domain, dryRun, updateUser, users[j])
    requires submitted == Sweep(users[..i], domain, dryRun).0
    requires audit' == audit + Sweep(users[..i], domain, dryRun).1
    ensures fault ==> Faults(domain, dryRun, updateUser, users[i])
    ensures !fault ==>
              && (forall j :: 0 <= j < i + 1 ==> !Faults(domain, dryRun, updateUser, users[j]))
              && submitted'' == Sweep(users[..i + 1], domain, dryRun).0
              && audit'' == audit + Sweep(users[..i + 1], domain, dryRun).1
  {
    var update, line;
    update, line, fault := Handle(domain, users[i], dryRun, updateUser);
    submitted'', audit'' := submitted, audit';
    if !fault {
      NoFaultStep(users, i, domain, dryRun, updateUser);
      SweepStepUser(users, i, domain, dryRun);
      submitted'', audit'' := submitted + update, audit' + line;
    }
  }

  /**
   * The loop over the fetched users: sweep, then submit and append to the
   * audit file as decided. The first fault stops it: `halted` is that user's
   * index, and only the users before it were submitted and audited.
   */
  method SweepAll(users: seq<User>, domain: string, dryRun: bool, updateUser: User -> Call, audit: seq<string>)
    returns (submitted: seq<User>, audit': seq<string>, halted: Option<nat>)
    ensures halted.None? ==>
              && (forall j :: 0 <= j < |users| ==> !Faults(domain, dryRun, updateUser, users[j]))
              && submitted == Sweep(users, domain, dryRun).0
              && audit' == audit + Sweep(users, domain, dryRun).1
    ensures halted.Some? ==>
              var k := halted.value;
              && k < |users| && Faults(domain, dryRun, updateUser, users[k])
              && (forall j :: 0 <= j < k ==> !Faults(domain, dryRun, updateUser, users[j]))
              && submitted == Sweep(users[..k], domain, dryRun).0
              && audit' == audit + Sweep(users[..k], domain, dryRun).1
  {
    submitted, audit', halted := [], audit, None;
    var i := 0;
    while i < |users|
      invariant 0 <= i <= |users|
      invariant forall j :: 0 <= j < i ==> !Faults(domain, dryRun, updateUser, users[j])
      invariant submitted == Sweep(users[..i], domain, dryRun).0
      invariant audit' == audit + Sweep(users[..i], domain, dryRun).1
    {
      var submitted'', audit'', fault := SweepNext(users, i, domain, dryRun, updateUser, audit, submitted, audit');
      if fault {
        return submitted, audit', Some(i);
      }
      submitted, audit' := submitted'', audit'';
      i := i + 1;
    }
    assert users[..i] == users;
  }
}
