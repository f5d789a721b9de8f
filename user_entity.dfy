/**
 * The immutable user entity: a factory that validates the profile name,
 * reconstruction from stored data without validation, the default role of a
 * new user, and soft deletion by copy. Freezing is not modelled: Dafny values
 * are immutable already.
 */
module UserEntity {
  import opened Wrappers
  import opened Json
  import JsString

  type Time = int

  datatype UserStatus = Active | Invited

  /** One entry of `roles`. */
  datatype UserRole = UserRole(churchId: string, roleId: string)

  /** The profile: the two names it validates and its other optional fields by name. */
  datatype UserProfile = UserProfile(firstName: string, lastName: string, householdId: string, householdRole: string, details: map<string, Json>)

  datatype User = User(
    id: string, primaryEmail: string, churchId: string, status: UserStatus,
    createdAt: Time, lastLoginAt: Option<Time>, roles: seq<UserRole>, profile: UserProfile,
    deletedAt: Option<Time>, themePreference: Option<string>, themeDarkMode: Option<bool>)

  const FirstNameRequired := "First name is required"
  const LastNameRequired := "Last name is required"
  const MemberRoleId := "role-member"

  predicate Blank(s: string)
  {
    JsString.Trim(s) == []
  }

  /** `User.create` on properties without `deletedAt`: first name, then last name, must not be blank. */
  function Create(props: User): (r: Result<User, string>)
    requires props.deletedAt.None?
    ensures Blank(props.profile.firstName) ==> r == Err(FirstNameRequired)
    ensures !Blank(props.profile.firstName) && Blank(props.profile.lastName) ==> r == Err(LastNameRequired)
    ensures r.Ok? <==> !Blank(props.profile.firstName) && !Blank(props.profile.lastName)
    ensures r.Ok? ==> r.value == props && !IsDeleted(r.value)
  {
    if Blank(props.profile.firstName) then Err(FirstNameRequired)
    else if Blank(props.profile.lastName) then Err(LastNameRequired)
    else Ok(props)
  }

  /** `User.from`: stored properties, taken as they are. */
  function From(props: User): User
  {
    props
  }

  /** `createDefaultRoles`: the member role of the given church, and nothing else. */
  function CreateDefaultRoles(churchId: string): (roles: seq<UserRole>)
    ensures |roles| == 1
    ensures forall r :: r in roles <==> r == UserRole(churchId, MemberRoleId)
  {
    [UserRole(churchId, MemberRoleId)]
  }

  predicate IsDeleted(u: User)
  {
    u.deletedAt.Some?
  }

  /** `markAsDeleted`: a copy with the deletion time set. */
  function MarkAsDeleted(u: User, now: Time): (r: User)
    ensures IsDeleted(r) && r.deletedAt == Some(now)
  {
    u.(deletedAt := Some(now))
  }

  /** Soft deletion keeps every other field, so undoing the deletion time gives the user back. */
  lemma MarkAsDeletedKeepsFields(u: User, now: Time)
    ensures var r := MarkAsDeleted(u, now);
            && r.id == u.id && r.primaryEmail == u.primaryEmail && r.churchId == u.churchId
            && r.status == u.status && r.createdAt == u.createdAt && r.lastLoginAt == u.lastLoginAt
            && r.roles == u.roles && r.profile == u.profile
            && r.themePreference == u.themePreference && r.themeDarkMode == u.themeDarkMode
            && r.(deletedAt := u.deletedAt) == u
  {
  }

  /** `from` does not validate: a stored user with a blank first name is kept, though `create` refuses it. */
  lemma FromDoesNotValidate(props: User)
    requires props.deletedAt.None? && Blank(props.profile.firstName)
    ensures From(props) == props
    ensures Create(props) == Err(FirstNameRequired)
  {
  }

  /** A name of white space only counts as blank, so it is refused. */
  lemma WhitespaceNameRefused(props: User)
    requires props.deletedAt.None?
    requires forall k :: 0 <= k < |props.profile.firstName| ==> JsString.IsWhitespace(props.profile.firstName[k])
    ensures Create(props) == Err(FirstNameRequired)
  {
    JsString.TrimEmptyIff(props.profile.firstName);
  }
}
