/**
 * `update_user_federation_ids` and the error-log logic of its `__main__`:
 * read (userName, federationId) rows into a lookup dictionary, split the
 * domain's users into update candidates and skipped users with the sentinel
 * "skip", set each candidate's federationId, strip its EMail and submit it
 * with `modifyUser`, sorting the outcomes into updated users and error users;
 * then, when there were errors, derive a timestamped error-log name and
 * write one pipe-delimited row per error user.
 *
 * `modifyUser` is a parameter: a function from the submitted general-info
 * block to what the call returned or the fault it raised.
 */
module FederationUpdate {
  import opened Common
  import opened Users

  // ---------------------------------------------------------------------
  // str.strip()
  // ---------------------------------------------------------------------

  /** The characters `str.strip()` removes that this model knows: ASCII whitespace and the separators 0x1C-0x1F. */
  predicate IsSpace(c: char) {
    c == ' ' || '\t' <= c <= '\r' || '\U{1C}' <= c <= '\U{1F}'
  }

  /** `s.strip()`: drop the leading and the trailing whitespace. */
  function Strip(s: string): (r: string)
    ensures |r| <= |s|
    ensures s == [] || (!IsSpace(s[0]) && !IsSpace(s[|s| - 1])) ==> r == s
    decreases |s|
  {
    if s != [] && IsSpace(s[0]) then Strip(s[1..])
    else if s != [] && IsSpace(s[|s| - 1]) then Strip(s[..|s| - 1])
    else s
  }

  /** What `strip` keeps begins and ends with a non-whitespace character, unless it is empty. */
  lemma {:induction false} StripEnds(s: string)
    ensures var r := Strip(s);
            r == [] || (!IsSpace(r[0]) && !IsSpace(r[|r| - 1]))
    decreases |s|
  {
    if s != [] && IsSpace(s[0]) {
      StripEnds(s[1..]);
    } else if s != [] && IsSpace(s[|s| - 1]) {
      StripEnds(s[..|s| - 1]);
    }
  }

  /** `r` is `s[i..i + |r|]` with only whitespace before and after it. */
  predicate WindowAt(s: string, r: string, i: int) {
    && 0 <= i <= |s| - |r| && r == s[i..i + |r|]
    && (forall k :: 0 <= k < i ==> IsSpace(s[k]))
    && (forall k :: i + |r| <= k < |s| ==> IsSpace(s[k]))
  }

  /** What `strip` keeps is a window of `s` with only whitespace before and after it. */
  lemma {:induction false} StripWindow(s: string)
    ensures exists i :: WindowAt(s, Strip(s), i)
    decreases |s|
  {
    var r := Strip(s);
    if s != [] && IsSpace(s[0]) {
      var t := s[1..];
      StripWindow(t);
      var j :| WindowAt(t, r, j);
      var i := j + 1;
      assert r == s[i..i + |r|];
      forall k | 0 <= k < i
        ensures IsSpace(s[k])
      {
        if k > 0 {
          assert s[k] == t[k - 1];
        }
      }
      forall k | i + |r| <= k < |s|
        ensures IsSpace(s[k])
      {
        assert s[k] == t[k - 1];
      }
      assert WindowAt(s, r, i);
    } else if s != [] && IsSpace(s[|s| - 1]) {
      var t := s[..|s| - 1];
      StripWindow(t);
      var j :| WindowAt(t, r, j);
      assert r == s[j..j + |r|];
      forall k | j + |r| <= k < |s|
        ensures IsSpace(s[k])
      {
        if k < |t| {
          assert s[k] == t[k];
        }
      }
      assert WindowAt(s, r, j);
    } else {
      assert r == s[0..0 + |r|];
      assert WindowAt(s, r, 0);
    }
  }

  /** Stripping twice strips nothing more. */
  lemma StripIdempotent(s: string)
    ensures Strip(Strip(s)) == Strip(s)
  {
    StripEnds(s);
  }

  // ---------------------------------------------------------------------
  // The lookup dictionary
  // ---------------------------------------------------------------------

  /** One row of the input CSV: its "userName" and "federationId" columns. */
  datatype CsvRow = CsvRow(userName: string, federationId: string)

  /** The dictionary the reading loop leaves: `user_federation_Ids[row["userName"]] = row["federationId"]` per row. */
  function Lookup(rows: seq<CsvRow>): seq<(string, string)> {
    if rows == [] then []
    else
      var row := rows[|rows| - 1];
      Set(Lookup(rows[..|rows| - 1]), row.userName, row.federationId)
  }

  /** Reference definition: the federationId of the last row naming `name`. */
  function LastFederationId(rows: seq<CsvRow>, name: string): Option<string> {
    if rows == [] then None
    else if rows[|rows| - 1].userName == name then Some(rows[|rows| - 1].federationId)
    else LastFederationId(rows[..|rows| - 1], name)
  }

  /** The dictionary maps every name to the value of its last row: a later row overwrites an earlier one. */
  lemma {:induction false} LookupIsLastRow(rows: seq<CsvRow>, name: string)
    ensures Get(Lookup(rows), name) == LastFederationId(rows, name)
    decreases |rows|
  {
    if rows != [] {
      LookupIsLastRow(rows[..|rows| - 1], name);
    }
  }

  /**
   * The last row naming `name`: absent exactly when no row names it;
   * otherwise some row names it with that value and no later row names it.
   */
  lemma {:induction false} LastFederationIdRow(rows: seq<CsvRow>, name: string)
    ensures LastFederationId(rows, name).None? <==> forall i :: 0 <= i < |rows| ==> rows[i].userName != name
    ensures LastFederationId(rows, name).Some? ==>
              exists i :: 0 <= i < |rows| && rows[i] == CsvRow(name, LastFederationId(rows, name).value)
                          && forall j :: i < j < |rows| ==> rows[j].userName != name
    decreases |rows|
  {
    if rows != [] {
      var init := rows[..|rows| - 1];
      LastFederationIdRow(init, name);
      assert forall i :: 0 <= i < |init| ==> init[i] == rows[i];
      if rows[|rows| - 1].userName != name && LastFederationId(init, name).Some? {
        var i :| 0 <= i < |init| && init[i] == CsvRow(name, LastFederationId(init, name).value)
                 && forall j :: i < j < |init| ==> init[j].userName != name;
        assert forall j :: i < j < |rows| ==> rows[j].userName != name;
      }
    }
  }

  /** The userName column, in row order. */
  function Names(rows: seq<CsvRow>): (names: seq<string>)
    ensures |names| == |rows|
  {
    if rows == [] then [] else Names(rows[..|rows| - 1]) + [rows[|rows| - 1].userName]
  }

  /** The dictionary's keys are the row names in order of first appearance. */
  lemma {:induction false} LookupKeys(rows: seq<CsvRow>)
    ensures Keys(Lookup(rows)) == AppendNew([], Names(rows))
    decreases |rows|
  {
    if rows != [] {
      var init := rows[..|rows| - 1];
      var name := rows[|rows| - 1].userName;
      LookupKeys(init);
      AppendNewSnoc([], Names(init), name);
    }
  }

  /** The reading loop. */
  method BuildLookup(rows: seq<CsvRow>) returns (d: seq<(string, string)>)
    ensures d == Lookup(rows)
  {
    d := [];
    var i := 0;
    while i < |rows|
      invariant 0 <= i <= |rows|
      invariant d == Lookup(rows[..i])
    {
      assert rows[..i + 1][..i] == rows[..i];
      d := Set(d, rows[i].userName, rows[i].federationId);
      i := i + 1;
    }
    assert rows[..i] == rows;
  }

  // ---------------------------------------------------------------------
  // Candidates and skipped users
  // ---------------------------------------------------------------------

  /** `user_federation_Ids.get(userName, "skip") != "skip"`. */
  predicate IsCandidate(lookup: seq<(string, string)>, u: User) {
    Get(lookup, u.generalInfo.userName).GetOr("skip") != "skip"
  }

  /** A user is a candidate exactly when some row names it and the last such row's value is not "skip". */
  lemma CandidateByRows(rows: seq<CsvRow>, u: User)
    ensures IsCandidate(Lookup(rows), u) <==>
            var v := LastFederationId(rows, u.generalInfo.userName); v.Some? && v.value != "skip"
  {
    LookupIsLastRow(rows, u.generalInfo.userName);
  }

  /** `users_to_update`: the candidates, in fetch order. */
  function Candidates(lookup: seq<(string, string)>, users: seq<User>): seq<User> {
    if users == [] then []
    else
      var u := users[|users| - 1];
      Candidates(lookup, users[..|users| - 1]) + (if IsCandidate(lookup, u) then [u] else [])
  }

  /** `skip_users`: the others, in fetch order. */
  function Skipped(lookup: seq<(string, string)>, users: seq<User>): seq<User> {
    if users == [] then []
    else
      var u := users[|users| - 1];
      Skipped(lookup, users[..|users| - 1]) + (if IsCandidate(lookup, u) then [] else [u])
  }

  /** Together the two lists hold the fetched users with their multiplicities. */
  lemma {:induction false} PartitionMultiset(lookup: seq<(string, string)>, users: seq<User>)
    ensures multiset(Candidates(lookup, users)) + multiset(Skipped(lookup, users)) == multiset(users)
    decreases |users|
  {
    if users != [] {
      var init := users[..|users| - 1];
      var u := users[|users| - 1];
      PartitionMultiset(lookup, init);
      assert users == init + [u];
      assert multiset(users) == multiset(init) + multiset{u};
      if IsCandidate(lookup, u) {
        assert Candidates(lookup, users) == Candidates(lookup, init) + [u];
        assert Skipped(lookup, users) == Skipped(lookup, init) + [];
      } else {
        assert Candidates(lookup, users) == Candidates(lookup, init) + [];
        assert Skipped(lookup, users) == Skipped(lookup, init) + [u];
      }
    }
  }

  /** The first list holds only candidates, the second none. */
  lemma {:induction false} PartitionSides(lookup: seq<(string, string)>, users: seq<User>)
    ensures forall u :: u in Candidates(lookup, users) ==> IsCandidate(lookup, u)
    ensures forall u :: u in Skipped(lookup, users) ==> !IsCandidate(lookup, u)
    decreases |users|
  {
    if users != [] {
      PartitionSides(lookup, users[..|users| - 1]);
    }
  }

  /**
   * Every fetched user lands in exactly one of the two lists: together they
   * hold the fetched users with their multiplicities, the first exactly the
   * candidates and the second exactly the others.
   */
  lemma PartitionExact(lookup: seq<(string, string)>, users: seq<User>)
    ensures multiset(Candidates(lookup, users)) + multiset(Skipped(lookup, users)) == multiset(users)
    ensures |Candidates(lookup, users)| + |Skipped(lookup, users)| == |users|
    ensures forall u :: u in Candidates(lookup, users) <==> u in users && IsCandidate(lookup, u)
    ensures forall u :: u in Skipped(lookup, users) <==> u in users && !IsCandidate(lookup, u)
  {
    var c, k := Candidates(lookup, users), Skipped(lookup, users);
    PartitionMultiset(lookup, users);
    PartitionSides(lookup, users);
    assert |multiset(c)| + |multiset(k)| == |multiset(users)|;
    forall u
      ensures u in c <==> u in users && IsCandidate(lookup, u)
      ensures u in k <==> u in users && !IsCandidate(lookup, u)
    {
      assert u in c <==> u in multiset(c);
      assert u in k <==> u in multiset(k);
      assert u in users <==> u in multiset(users);
    }
  }

  /** The partition loop. */
  method Partition(lookup: seq<(string, string)>, users: seq<User>) returns (toUpdate: seq<User>, skip: seq<User>)
    ensures toUpdate == Candidates(lookup, users)
    ensures skip == Skipped(lookup, users)
  {
    toUpdate, skip := [], [];
    var i := 0;
    while i < |users|
      invariant 0 <= i <= |users|
      invariant toUpdate == Candidates(lookup, users[..i])
      invariant skip == Skipped(lookup, users[..i])
    {
      assert users[..i + 1][..i] == users[..i];
      if IsCandidate(lookup, users[i]) {
        toUpdate := toUpdate + [users[i]];
      } else {
        skip := skip + [users[i]];
      }
      i := i + 1;
    }
    assert users[..i] == users;
  }

  // ---------------------------------------------------------------------
  // Submitting the candidates
  // ---------------------------------------------------------------------

  /** What `modifyUser` did with one submission: returned a value, or raised a zeep Fault with its text. */
  datatype Submission<R> = Returned(result: R) | Fault(message: string)

  /** The user as submitted: federationId set to the mapped value and EMail stripped. */
  function Prepare(u: User, federationId: string): (p: User)
    ensures p.generalInfo.federationId == Some(federationId)
    ensures p.generalInfo.userName == u.generalInfo.userName && p.generalInfo.active == u.generalInfo.active
    ensures p.generalInfo.other == u.generalInfo.other && p.generalInfo.mediaTypes == u.generalInfo.mediaTypes
    ensures p.roles == u.roles && p.errorMessage == u.errorMessage
    ensures |p.generalInfo.EMail| <= |u.generalInfo.EMail|
  {
    u.(generalInfo := u.generalInfo.(federationId := Some(federationId), EMail := Strip(u.generalInfo.EMail)))
  }

  /** Preparing changes the federationId and the EMail, and nothing else. */
  lemma PrepareChangesOnly(u: User, federationId: string)
    ensures var p := Prepare(u, federationId);
            && p.generalInfo.federationId == Some(federationId)
            && p.generalInfo.EMail == Strip(u.generalInfo.EMail)
            && p.generalInfo.(federationId := u.generalInfo.federationId, EMail := u.generalInfo.EMail) == u.generalInfo
            && p.(generalInfo := u.generalInfo) == u
  {
  }

  /** Preparing a prepared user again with the same value changes nothing. */
  lemma PrepareIdempotent(u: User, federationId: string)
    ensures Prepare(Prepare(u, federationId), federationId) == Prepare(u, federationId)
  {
    StripIdempotent(u.generalInfo.EMail);
  }

  /** The looked-up value, "skip" when the name is not in the dictionary. */
  function Mapped(lookup: seq<(string, string)>, u: User): string {
    Get(lookup, u.generalInfo.userName).GetOr("skip")
  }

  /** The submission of one user of the update list; none when the lookup says "skip". */
  function Submit<R>(lookup: seq<(string, string)>, u: User, modifyUser: GeneralInfo -> Submission<R>): Option<Submission<R>> {
    if Mapped(lookup, u) == "skip" then None
    else Some(modifyUser(Prepare(u, Mapped(lookup, u)).generalInfo))
  }

  /** What one user adds to the updated list: the value its submission returned. */
  function UpdatedBy<R>(lookup: seq<(string, string)>, u: User, modifyUser: GeneralInfo -> Submission<R>): seq<R> {
    match Submit(lookup, u, modifyUser)
    case Some(Returned(r)) => [r]
    case _ => []
  }

  /** What one user adds to the error list: itself, as prepared, carrying the fault's text. */
  function FaultedBy<R>(lookup: seq<(string, string)>, u: User, modifyUser: GeneralInfo -> Submission<R>): seq<User> {
    match Submit(lookup, u, modifyUser)
    case Some(Fault(m)) => [Prepare(u, Mapped(lookup, u)).(errorMessage := Some(m))]
    case _ => []
  }

  /** A user submits exactly once: it adds one value or one error when it is a candidate, nothing otherwise. */
  lemma SubmitOnce<R>(lookup: seq<(string, string)>, u: User, modifyUser: GeneralInfo -> Submission<R>)
    ensures |UpdatedBy(lookup, u, modifyUser)| + |FaultedBy(lookup, u, modifyUser)| == if IsCandidate(lookup, u) then 1 else 0
    ensures forall e :: e in FaultedBy(lookup, u, modifyUser) ==>
              && e.generalInfo.federationId == Some(Mapped(lookup, u))
              && e.generalInfo.EMail == Strip(u.generalInfo.EMail)
              && e.errorMessage.Some?
  {
  }

  function UpdatedFn<R>(lookup: seq<(string, string)>, modifyUser: GeneralInfo -> Submission<R>): User -> seq<R> {
    u => UpdatedBy(lookup, u, modifyUser)
  }

  function FaultedFn<R>(lookup: seq<(string, string)>, modifyUser: GeneralInfo -> Submission<R>): User -> seq<User> {
    u => FaultedBy(lookup, u, modifyUser)
  }

  datatype Outcomes<R> = Outcomes(updated: seq<R>, errors: seq<User>)

  /**
   * The update loop over `users`: each returned value is appended to the
   * updated list, each faulted user, as prepared and carrying the fault's
   * text, to the error list, in the order of `users`.
   */
  function Submitted<R>(lookup: seq<(string, string)>, users: seq<User>, modifyUser: GeneralInfo -> Submission<R>): Outcomes<R> {
    Outcomes(Gather(users, UpdatedFn(lookup, modifyUser)), Gather(users, FaultedFn(lookup, modifyUser)))
  }

  /** When every user is a candidate, each lands in exactly one of the two lists. */
  lemma {:induction false} SubmittedAccounting<R>(lookup: seq<(string, string)>, users: seq<User>, modifyUser: GeneralInfo -> Submission<R>)
    requires forall u :: u in users ==> IsCandidate(lookup, u)
    ensures |Submitted(lookup, users, modifyUser).updated| + |Submitted(lookup, users, modifyUser).errors| == |users|
    decreases |users|
  {
    if users != [] {
      var init := users[..|users| - 1];
      assert forall u :: u in init ==> u in users;
      SubmittedAccounting(lookup, init, modifyUser);
      SubmitOnce(lookup, users[|users| - 1], modifyUser);
    }
  }

  /** The error list holds exactly the errors the users' submissions raised. */
  lemma SubmittedErrors<R>(lookup: seq<(string, string)>, users: seq<User>, modifyUser: GeneralInfo -> Submission<R>, e: User)
    ensures e in Submitted(lookup, users, modifyUser).errors <==>
            exists i :: 0 <= i < |users| && e in FaultedBy(lookup, users[i], modifyUser)
  {
    GatherMember(users, FaultedFn(lookup, modifyUser), e);
  }

  /** The updated list holds exactly the values the users' submissions returned. */
  lemma SubmittedUpdated<R>(lookup: seq<(string, string)>, users: seq<User>, modifyUser: GeneralInfo -> Submission<R>, r: R)
    ensures r in Submitted(lookup, users, modifyUser).updated <==>
            exists i :: 0 <= i < |users| && Submit(lookup, users[i], modifyUser) == Some(Returned(r))
  {
    GatherMember(users, UpdatedFn(lookup, modifyUser), r);
  }

  /** One iteration of the update loop: look up, prepare, submit, and sort the outcome. */
  method SubmitOne<R>(lookup: seq<(string, string)>, u: User, modifyUser: GeneralInfo -> Submission<R>)
    returns (returned: seq<R>, faulted: seq<User>)
    ensures returned == UpdatedBy(lookup, u, modifyUser)
    ensures faulted == FaultedBy(lookup, u, modifyUser)
  {
    returned, faulted := [], [];
    var federationId := Get(lookup, u.generalInfo.userName).GetOr("skip");
    if federationId != "skip" {
      var user := Prepare(u, federationId);
      match modifyUser(user.generalInfo) {
        case Returned(modified) =>
          returned := [modified];
        case Fault(message) =>
          faulted := [user.(errorMessage := Some(message))];
      }
    }
  }

  /** The update loop; a fault does not stop it. */
  method SubmitUpdates<R>(lookup: seq<(string, string)>, toUpdate: seq<User>, modifyUser: GeneralInfo -> Submission<R>)
    returns (updated: seq<R>, errors: seq<User>)
    ensures Outcomes(updated, errors) == Submitted(lookup, toUpdate, modifyUser)
  {
    updated, errors := [], [];
    var i := 0;
    while i < |toUpdate|
      invariant 0 <= i <= |toUpdate|
      invariant Outcomes(updated, errors) == Submitted(lookup, toUpdate[..i], modifyUser)
    {
      assert toUpdate[..i + 1][..i] == toUpdate[..i];
      var returned, faulted := SubmitOne(lookup, toUpdate[i], modifyUser);
      assert Submitted(lookup, toUpdate[..i + 1], modifyUser) == Outcomes(updated + returned, errors + faulted);
      updated, errors := updated + returned, errors + faulted;
      i := i + 1;
    }
    assert toUpdate[..i] == toUpdate;
  }

  /**
   * `update_user_federation_ids`: build the lookup, partition the fetched
   * users, submit the candidates. Every fetched user is counted once.
   */
  method UpdateUserFederationIds<R>(rows: seq<CsvRow>, users: seq<User>, modifyUser: GeneralInfo -> Submission<R>)
    returns (updated: seq<R>, errors: seq<User>, skip: seq<User>)
    ensures skip == Skipped(Lookup(rows), users)
    ensures Outcomes(updated, errors) == Submitted(Lookup(rows), Candidates(Lookup(rows), users), modifyUser)
    ensures |updated| + |errors| + |skip| == |users|
  {
    var lookup := BuildLookup(rows);
    var toUpdate;
    toUpdate, skip := Partition(lookup, users);
    updated, errors := SubmitUpdates(lookup, toUpdate, modifyUser);
    PartitionExact(lookup, users);
    PartitionSides(lookup, users);
    SubmittedAccounting(lookup, toUpdate, modifyUser);
  }

  // ---------------------------------------------------------------------
  // The error-log path
  // ---------------------------------------------------------------------

  /** `s.rfind(c)`: the index of the last `c` in `s`, if any. */
  function LastIndexOf(s: string, c: char): (r: Option<nat>)
    ensures r.None? <==> c !in s
    ensures r.Some? ==> r.value < |s| && s[r.value] == c && c !in s[r.value + 1..]
  {
    if s == [] then None
    else if s[|s| - 1] == c then Some(|s| - 1)
    else
      var r := LastIndexOf(s[..|s| - 1], c);
      assert s == s[..|s| - 1] + [s[|s| - 1]];
      if r.Some? then
        assert s[r.value + 1..] == s[..|s| - 1][r.value + 1..] + [s[|s| - 1]];
        r
      else r
  }

  /** The last `c` of `a + b` is the last of `b` when `b` holds one, otherwise the last of `a`. */
  lemma {:induction false} LastIndexOfConcat(a: string, b: string, c: char)
    ensures LastIndexOf(a + b, c) ==
            if c in b then Some(|a| + LastIndexOf(b, c).value) else LastIndexOf(a, c)
    decreases |b|
  {
    if b == [] {
      assert a + b == a;
    } else {
      var init := b[..|b| - 1];
      assert (a + b)[..|a + b| - 1] == a + init;
      assert b == init + [b[|b| - 1]];
      if b[|b| - 1] != c {
        LastIndexOfConcat(a, init, c);
      }
    }
  }

  /** The directory part of a path, with its trailing '/' (empty for a bare name). */
  function Dir(path: string): string {
    match LastIndexOf(path, '/')
    case Some(i) => path[..i + 1]
    case None => []
  }

  /** `Path(path).name`: what follows the last '/'. */
  function Name(path: string): (r: string)
    ensures '/' !in r
  {
    match LastIndexOf(path, '/')
    case Some(i) => path[i + 1..]
    case None => path
  }

  /** A path is its directory followed by its name; a name joined to a directory splits back into the two. */
  lemma DirNameRoundTrip(path: string, dir: string, name: string)
    requires '/' !in name
    ensures Dir(path) + Name(path) == path
    ensures Dir(Dir(path) + name) == Dir(path) && Name(Dir(path) + name) == name
  {
    LastIndexOfConcat(Dir(path), name, '/');
    var d := Dir(path);
    match LastIndexOf(path, '/') {
      case Some(i) =>
        assert d[..i + 1] == d;
        assert LastIndexOf(d, '/') == Some(i) by {
          assert d[i + 1..] == [];
        }
        assert (d + name)[..i + 1] == d;
        assert (d + name)[i + 1..] == name;
      case None =>
        assert d + name == name;
    }
  }

  /** `PurePath.suffix`: from the last '.' of the name, when it is neither the first nor the last character. */
  function Suffix(name: string): (r: string)
    ensures r == [] || (|r| >= 2 && r[0] == '.' && '.' !in r[1..])
  {
    match LastIndexOf(name, '.')
    case Some(i) =>
      if 0 < i < |name| - 1 then
        assert name[i..][1..] == name[i + 1..];
        name[i..]
      else []
    case None => []
  }

  /** `PurePath.stem`: the name without its suffix. */
  function Stem(name: string): string {
    match LastIndexOf(name, '.')
    case Some(i) => if 0 < i < |name| - 1 then name[..i] else name
    case None => name
  }

  /** A name is its stem followed by its suffix. */
  lemma StemSuffix(name: string)
    ensures Stem(name) + Suffix(name) == name
  {
  }

  /** The suffix of `base + suffix`, for a suffix as `PurePath.suffix` yields one and a non-empty base, is `suffix`. */
  lemma SuffixOfSuffixed(base: string, suffix: string)
    requires base != []
    requires |suffix| >= 2 && suffix[0] == '.' && '.' !in suffix[1..]
    ensures Suffix(base + suffix) == suffix && Stem(base + suffix) == base
  {
    LastIndexOfConcat(base, suffix, '.');
    assert LastIndexOf(suffix, '.') == Some(0) by {
      LastIndexOfConcat([suffix[0]], suffix[1..], '.');
      assert [suffix[0]] + suffix[1..] == suffix;
    }
    assert (base + suffix)[|base|..] == suffix;
    assert (base + suffix)[..|base|] == base;
  }

  /**
   * The error-log path as the script computes it. With a suffix, the name
   * becomes `<stem>_<timestamp><suffix>` in the same directory. Without
   * one, `with_suffix` is handed `_<timestamp>.csv`, which does not start
   * with '.', and raises ValueError.
   */
  function ErrorLogPathAsWritten(errorlog: string, timestamp: string): (r: Result<string, string>)
    ensures r.Err? <==> Suffix(Name(errorlog)) == []
    ensures r.Ok? ==> |Dir(errorlog)| <= |r.value| && r.value[..|Dir(errorlog)|] == Dir(errorlog)
  {
    var name := Name(errorlog);
    if Suffix(name) != [] then Ok(Dir(errorlog) + (Stem(name) + "_" + timestamp + Suffix(name)))
    else Err("Invalid suffix")
  }

  /** The default-style path "private/errors" has no suffix, so the script raises before writing any log. */
  lemma AsWrittenNoSuffixRaises(timestamp: string)
    ensures ErrorLogPathAsWritten("private/errors", timestamp).Err?
  {
    assert LastIndexOf("private/errors", '/') == Some(7);
    assert Name("private/errors") == "errors";
    assert LastIndexOf("errors", '.') == None;
  }

  /**
   * The error-log path as evidently intended: with a suffix as written;
   * without one, `<name>_<timestamp>.csv` in the same directory.
   */
  function ErrorLogPath(errorlog: string, timestamp: string): (r: string)
    ensures Suffix(Name(errorlog)) != [] ==> ErrorLogPathAsWritten(errorlog, timestamp) == Ok(r)
    ensures |Dir(errorlog)| <= |r| && r[..|Dir(errorlog)|] == Dir(errorlog)
  {
    var name := Name(errorlog);
    if Suffix(name) != [] then Dir(errorlog) + (Stem(name) + "_" + timestamp + Suffix(name))
    else Dir(errorlog) + (name + "_" + timestamp + ".csv")
  }

  /**
   * The intended path stays in the log's directory, its name carries the
   * timestamp after the original stem, and it keeps the original suffix, or
   * ".csv" when there was none; where the script does not raise it computes
   * the same path.
   */
  lemma ErrorLogPathShape(errorlog: string, timestamp: string)
    requires '/' !in timestamp
    ensures var name := Name(errorlog);
            var r := ErrorLogPath(errorlog, timestamp);
            var suffix := if Suffix(name) != [] then Suffix(name) else ".csv";
            && Dir(r) == Dir(errorlog)
            && Name(r) == Stem(name) + "_" + timestamp + suffix
            && Suffix(Name(r)) == suffix
            && Stem(Name(r)) == Stem(name) + "_" + timestamp
    ensures ErrorLogPathAsWritten(errorlog, timestamp).Ok? ==>
            ErrorLogPathAsWritten(errorlog, timestamp).value == ErrorLogPath(errorlog, timestamp)
  {
    var name := Name(errorlog);
    var suffix := if Suffix(name) != [] then Suffix(name) else ".csv";
    var base := Stem(name) + "_" + timestamp;
    assert '/' !in base + suffix by {
      StemSuffix(name);
      assert '/' !in Stem(name) + Suffix(name);
      assert '/' !in "_" && '/' !in ".csv";
    }
    DirNameRoundTrip(errorlog, Dir(errorlog), base + suffix);
    SuffixOfSuffixed(base, suffix);
  }

  // ---------------------------------------------------------------------
  // The error log
  // ---------------------------------------------------------------------

  /** The error log's column names, in order. */
  const ErrorLogHeader: seq<string> := ["userName", "federationId", "errorMessage"]

  /** One error user's row: userName, federationId and errorMessage; `DictWriter` writes a missing value as "". */
  function ErrorRow(u: User): (cells: seq<string>)
    ensures |cells| == |ErrorLogHeader|
  {
    [u.generalInfo.userName, u.generalInfo.federationId.GetOr(""), u.errorMessage.GetOr("")]
  }

  /** A row as written: its cells joined by the '|' delimiter. */
  function Render(cells: seq<string>): string {
    if cells == [] then []
    else if |cells| == 1 then cells[0]
    else Render(cells[..|cells| - 1]) + "|" + cells[|cells| - 1]
  }

  /** Reading a written line back: the text between consecutive '|' delimiters. */
  function SplitFields(line: string): (cells: seq<string>)
    ensures |cells| >= 1
    decreases |line|
  {
    match LastIndexOf(line, '|')
    case None => [line]
    case Some(i) => SplitFields(line[..i]) + [line[i + 1..]]
  }

  /** The last delimiter of `a|b`, for `b` without one, is the one before `b`. */
  lemma SplitLast(a: string, b: string)
    requires '|' !in b
    ensures SplitFields(a + "|" + b) == SplitFields(a) + [b]
  {
    var line := a + "|" + b;
    LastIndexOfConcat(a + "|", b, '|');
    assert LastIndexOf(a + "|", '|') == Some(|a|);
    assert line[..|a|] == a;
    assert line[|a| + 1..] == b;
  }

  /** Splitting a written row gives its cells back, as long as no cell holds the delimiter. */
  lemma {:induction false} RenderRoundTrip(cells: seq<string>)
    requires |cells| >= 1
    requires forall k :: 0 <= k < |cells| ==> '|' !in cells[k]
    ensures SplitFields(Render(cells)) == cells
    decreases |cells|
  {
    if |cells| > 1 {
      var init := cells[..|cells| - 1];
      var last := cells[|cells| - 1];
      RenderRoundTrip(init);
      SplitLast(Render(init), last);
      assert cells == init + [last];
    }
  }

  /** The header line is "userName|federationId|errorMessage". */
  lemma ErrorLogHeaderLine()
    ensures Render(ErrorLogHeader) == "userName|federationId|errorMessage"
  {
    assert ErrorLogHeader[..2] == ["userName", "federationId"];
    assert ErrorLogHeader[..2][..1] == ["userName"];
  }

  /** An error user's line reads back as its row, as long as no value holds the delimiter. */
  lemma ErrorRowReadBack(u: User)
    requires '|' !in u.generalInfo.userName
    requires '|' !in u.generalInfo.federationId.GetOr("")
    requires '|' !in u.errorMessage.GetOr("")
    ensures SplitFields(Render(ErrorRow(u))) == ErrorRow(u)
  {
    RenderRoundTrip(ErrorRow(u));
  }

  /** An error log: where it was written and its lines, header first. */
  datatype ErrorLog = ErrorLog(path: string, lines: seq<string>)

  /** Write the header, then one line per error user in error-list order. */
  method WriteErrorLog(path: string, errors: seq<User>) returns (log: ErrorLog)
    ensures log.path == path
    ensures |log.lines| == |errors| + 1 && log.lines[0] == Render(ErrorLogHeader)
    ensures forall k :: 0 <= k < |errors| ==> log.lines[k + 1] == Render(ErrorRow(errors[k]))
  {
    var lines := [Render(ErrorLogHeader)];
    var i := 0;
    while i < |errors|
      invariant 0 <= i <= |errors|
      invariant |lines| == i + 1 && lines[0] == Render(ErrorLogHeader)
      invariant forall k :: 0 <= k < i ==> lines[k + 1] == Render(ErrorRow(errors[k]))
    {
      lines := lines + [Render(ErrorRow(errors[i]))];
      i := i + 1;
    }
    log := ErrorLog(path, lines);
  }

  // ---------------------------------------------------------------------
  // The script
  // ---------------------------------------------------------------------

  /** What a run leaves: the three lists it reports and the error log, written only when there were errors. */
  datatype FederationRun<R> = FederationRun(updated: seq<R>, errors: seq<User>, skipped: seq<User>, errorLog: Option<ErrorLog>)

  /**
   * `__main__` after argument parsing: update, then write the error log under
   * the timestamped name when some submission faulted. The timestamp is a
   * parameter in the `%Y%m%d_%H%M%S` form, so it holds no '/'.
   */
  method FederationMain<R>(rows: seq<CsvRow>, users: seq<User>, modifyUser: GeneralInfo -> Submission<R>,
                           errorlog: string, timestamp: string)
    returns (run: FederationRun<R>)
    requires '/' !in timestamp
    ensures run.skipped == Skipped(Lookup(rows), users)
    ensures Outcomes(run.updated, run.errors) == Submitted(Lookup(rows), Candidates(Lookup(rows), users), modifyUser)
    ensures |run.updated| + |run.errors| + |run.skipped| == |users|
    ensures run.errorLog.Some? <==> run.errors != []
    ensures run.errorLog.Some? ==>
              && run.errorLog.value.path == ErrorLogPath(errorlog, timestamp)
              && (Suffix(Name(errorlog)) != [] ==> ErrorLogPathAsWritten(errorlog, timestamp) == Ok(run.errorLog.value.path))
              && |run.errorLog.value.lines| == |run.errors| + 1
              && run.errorLog.value.lines[0] == Render(ErrorLogHeader)
              && forall k :: 0 <= k < |run.errors| ==> run.errorLog.value.lines[k + 1] == Render(ErrorRow(run.errors[k]))
  {
    var updated, errors, skip := UpdateUserFederationIds(rows, users, modifyUser);
    var log: Option<ErrorLog> := None;
    if errors != [] {
      var path := ErrorLogPath(errorlog, timestamp);
      var written := WriteErrorLog(path, errors);
      log := Some(written);
    }
    run := FederationRun(updated, errors, skip, log);
  }
}
