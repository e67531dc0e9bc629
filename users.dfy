/**
 * The user record the vendor API hands back (`getUsersInfo`, `getUserInfo`):
 * a general-info block and a role container mapping role names ("agent",
 * "admin", "supervisor", ...) to a role with a permission list. Attributes
 * the scripts probe with try/except or `getattr(..., default)` are `Option`s.
 */
module Users {
  import opened Common

  /** A cell value as the scripts see it: a string, a boolean, or Python's None. */
  datatype Value = Text(s: string) | Flag(b: bool) | Null

  /** A (type, value) permission; either attribute may be missing. */
  datatype Permission = Permission(ptype: Option<string>, value: Option<bool>)

  datatype Role = Role(permissions: seq<Permission>)

  datatype MediaType = MediaType(mtype: string, enabled: bool)

  /**
   * The general-info block. The fields the scripts read or write by name are
   * spelled out; every other profile attribute (fullName, firstName, ...) is
   * in `other`. `mediaTypes` is None when the record has no media-type
   * configuration.
   */
  datatype GeneralInfo = GeneralInfo(
    userName: string,
    EMail: string,
    active: bool,
    federationId: Option<string>,
    other: seq<(string, Value)>,
    mediaTypes: Option<seq<MediaType>>)

  /**
   * A user. `roles` is the role container in the order the API gives it; a
   * role that is absent, or present with the value None, is a missing role.
   * `errorMessage` is the attribute the federation update attaches on a fault.
   */
  datatype User = User(
    generalInfo: GeneralInfo,
    roles: seq<(string, Option<Role>)>,
    errorMessage: Option<string>)

  /** `user.roles.<name>` when it is present and not None. */
  function RoleOf(u: User, name: string): (r: Option<Role>)
    ensures r.Some? <==> name in Keys(u.roles) && Get(u.roles, name).value.Some?
    ensures r.Some? ==> (name, Some(r.value)) in u.roles
  {
    var entry := Get(u.roles, name);
    if entry.Some? && entry.value.Some? then Some(entry.value.value) else None
  }

  /** `user.generalInfo[name]`; None when the attribute does not exist. */
  function Field(g: GeneralInfo, name: string): (r: Option<Value>)
    ensures r.None? <==> name !in ["userName", "EMail", "active", "federationId"] && name !in Keys(g.other)
    ensures name == "userName" ==> r == Some(Text(g.userName))
    ensures name == "federationId" ==> r.Some? && (r.value.Text? <==> g.federationId.Some?)
  {
    if name == "userName" then Some(Text(g.userName))
    else if name == "EMail" then Some(Text(g.EMail))
    else if name == "active" then Some(Flag(g.active))
    else if name == "federationId" then
      Some(match g.federationId case Some(f) => Text(f) case None => Null)
    else Get(g.other, name)
  }
}
