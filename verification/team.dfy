/** The team server actions of app/actions/team.ts: inviting a person by
    e-mail into the active organization (creating a placeholder user when
    the address is unknown) and removing a member from it. The active
    organization is the one `getCurrentOrgId` resolves; the cookie is an
    input. */
module Team {
  import opened Outcomes
  import opened Text
  import opened Store
  import opened OrganizationActions

  /** The submitted invitation form: `formData.get` of each field. */
  datatype InviteForm = InviteForm(email: Option<string>, role: Option<string>)

  /** An accepted invitation. */
  datatype Invite = Invite(email: string, role: Role)

  /** What `addTeamMember` returns (it throws only when there is no active
      organization). */
  datatype TeamReply =
    | Added
    | InvalidInvite(fields: set<string>)
    | AlreadyMember
    | ServerError

  /** The error text the form shows for each failure reply. */
  function ReplyMessage(r: TeamReply): Option<string> {
    match r
    case Added => None
    case InvalidInvite(_) => None
    case AlreadyMember => Some("Déjà membre")
    case ServerError => Some("Erreur serveur lors de l'ajout")
  }

  function RoleName(r: Role): string {
    match r
    case ADMIN => "ADMIN"
    case MEMBER => "MEMBER"
  }

  /** The role enumeration accepts exactly the two names. */
  function ParseRole(name: string): (r: Option<Role>)
    ensures r.Some? ==> RoleName(r.value) == name
    ensures r.None? ==> forall role: Role :: RoleName(role) != name
  {
    if name == "ADMIN" then Some(ADMIN)
    else if name == "MEMBER" then Some(MEMBER)
    else None
  }

  /** The invitation schema: a valid e-mail and a role, where a missing or
      empty role field means MEMBER (`formData.get("role") || "MEMBER"`).
      A rejection lists the offending fields. */
  function ParseInvite(form: InviteForm): (r: Result<Invite, set<string>>)
    ensures r.Success? ==> ValidEmail(r.value.email) && form.email == Some(r.value.email)
    ensures r.Success? && !Truthy(form.role) ==> r.value.role == MEMBER
    ensures r.Success? && Truthy(form.role) ==> RoleName(r.value.role) == form.role.value
    ensures r.Failure? ==> r.error != {} && r.error <= {"email", "role"}
    ensures r.Failure? ==>
      && ("email" in r.error <==> form.email.None? || !ValidEmail(form.email.value))
      && ("role" in r.error <==> Truthy(form.role) && ParseRole(form.role.value).None?)
  {
    var roleName := if Truthy(form.role) then form.role.value else "MEMBER";
    var emailBad := form.email.None? || !ValidEmail(form.email.value);
    var role := ParseRole(roleName);
    var errors := (if emailBad then {"email"} else {}) + (if role.None? then {"role"} else {});
    if errors != {} then Failure(errors)
    else Success(Invite(form.email.value, role.value))
  }

  /** The form a client sends for an invitation. */
  function InviteToForm(inv: Invite): InviteForm {
    InviteForm(Some(inv.email), Some(RoleName(inv.role)))
  }

  /** An invitation survives being sent as a form and read back, exactly
      when its address is valid. */
  lemma InviteRoundTrip(inv: Invite)
    ensures ParseInvite(InviteToForm(inv)).Success? <==> ValidEmail(inv.email)
    ensures ValidEmail(inv.email) ==> ParseInvite(InviteToForm(inv)) == Success(inv)
  {
  }

  /** The placeholder user created for an unknown address. */
  function GhostUser(id: UserId, email: string): User {
    User(id, email, None, None, None)
  }

  /** The user the invitation is for: the one with that address, else the
      placeholder. */
  function Invitee(db: Db, email: string, ghostId: UserId): (u: User)
    ensures u.email == email
    ensures GetUserByEmail(db, email).Some? ==> u == GetUserByEmail(db, email).value
    ensures GetUserByEmail(db, email).None? ==> u == GhostUser(ghostId, email)
  {
    match GetUserByEmail(db, email)
    case Some(u) => u
    case None => GhostUser(ghostId, email)
  }

  /** The transaction of `addTeamMember`: find or create the user, refuse
      an existing membership, create the membership. On any failure
      nothing is written. */
  function InviteTransaction(db: Db, inv: Invite, org: OrgId, ghostId: UserId): (r: Result<Db, TeamReply>)
    ensures r.Failure? ==> r.error == AlreadyMember || r.error == ServerError
    ensures r.Success? ==>
      var u := Invitee(db, inv.email, ghostId);
      && !IsMember(db, u.id, org)
      && org in db.orgs
      && r.value.memberships == db.memberships + [Membership(u.id, org, inv.role)]
      && r.value.users == (if GetUserByEmail(db, inv.email).Some? then db.users else db.users + [u])
      && r.value.orgs == db.orgs && r.value.customers == db.customers && r.value.invoices == db.invoices
    // an address that already belongs to the team
    ensures GetUserByEmail(db, inv.email).Some? && IsMember(db, GetUserByEmail(db, inv.email).value.id, org) ==>
      r == Failure(AlreadyMember)
    ensures (Valid(db) && org in db.orgs && !IsMember(db, Invitee(db, inv.email, ghostId).id, org)
             && (GetUserByEmail(db, inv.email).None? ==> ghostId !in UserIds(db.users))) ==> r.Success?
    ensures r.Success? && Valid(db) ==> Valid(r.value)
  {
    var found := GetUserByEmail(db, inv.email);
    var created := if found.Some? then Success(db) else CreateUser(db, GhostUser(ghostId, inv.email));
    match created
    case Failure(_) => Failure(ServerError)
    case Success(db1) =>
      var u := Invitee(db, inv.email, ghostId);
      assert IsMember(db1, u.id, org) <==> IsMember(db, u.id, org);
      if FindMembership(db1, u.id, org).Some? then Failure(AlreadyMember)
      else
        assert u.id in UserIds(db1.users) by {
          if found.None? { assert db1.users[|db1.users| - 1] == u; }
        }
        match CreateMembership(db1, Membership(u.id, org, inv.role))
        case Failure(_) => Failure(ServerError)
        case Success(db2) => Success(db2)
  }

  /** `addTeamMember`. No administrator check is made: the lookup of an
      administrator in the source is unused. */
  function AddTeamMember(db: Db, auth: Option<UserId>, cookie: Option<OrgId>, form: InviteForm, ghostId: UserId): (s: Step<TeamReply>)
    ensures GetCurrentOrgId(db, auth, cookie).None? ==>
      s == Step(Failure(Thrown("Aucune organisation active")), db)
    ensures GetCurrentOrgId(db, auth, cookie).Some? ==> s.result.Success?
    ensures s.result.Success? && ParseInvite(form).Failure? ==>
      s == Step(Success(InvalidInvite(ParseInvite(form).error)), db)
    // the membership is created in the caller's active organization, which
    // the caller belongs to, and it is the only membership created
    ensures s.result == Success(Added) ==>
      && auth.Some? && GetCurrentOrgId(db, auth, cookie).Some? && ParseInvite(form).Success?
      && var org := GetCurrentOrgId(db, auth, cookie).value;
         var inv := ParseInvite(form).value;
         && IsMember(db, auth.value, org)
         && s.db.memberships == db.memberships + [Membership(Invitee(db, inv.email, ghostId).id, org, inv.role)]
    // whatever the caller's role, a valid invitation of a non-member succeeds
    ensures (Valid(db) && GetCurrentOrgId(db, auth, cookie).Some? && ParseInvite(form).Success?
             && (var org := GetCurrentOrgId(db, auth, cookie).value;
                 var inv := ParseInvite(form).value;
                 && !IsMember(db, Invitee(db, inv.email, ghostId).id, org)
                 && (GetUserByEmail(db, inv.email).None? ==> ghostId !in UserIds(db.users))))
      ==> s.result == Success(Added)
    // any other reply writes nothing
    ensures s.result.Success? && s.result.value != Added ==> s.db == db
    ensures s.result.Failure? ==> s.db == db
    ensures s.db.orgs == db.orgs && s.db.customers == db.customers && s.db.invoices == db.invoices
    ensures Valid(db) ==> Valid(s.db)
  {
    match GetCurrentOrgId(db, auth, cookie)
    case None => Step(Failure(Thrown("Aucune organisation active")), db)
    case Some(org) =>
      match ParseInvite(form)
      case Failure(fields) => Step(Success(InvalidInvite(fields)), db)
      case Success(inv) =>
        match InviteTransaction(db, inv, org, ghostId)
        case Failure(reply) => Step(Success(reply), db)
        case Success(db') => Step(Success(Added), db')
  }

  /** `removeTeamMember`: deletes the membership of `userId` in the active
      organization. */
  function RemoveTeamMember(db: Db, auth: Option<UserId>, cookie: Option<OrgId>, userId: UserId): (s: Step<()>)
    ensures GetCurrentOrgId(db, auth, cookie).None? ==> s == Step(Failure(Thrown("Unauthorized")), db)
    // only a membership of the caller's active organization is touched
    ensures s.result.Success? ==>
      && auth.Some? && GetCurrentOrgId(db, auth, cookie).Some?
      && var org := GetCurrentOrgId(db, auth, cookie).value;
         && IsMember(db, auth.value, org)
         && IsMember(db, userId, org)
         && s.db == db.(memberships := RemoveAt(db.memberships, MembershipIndex(db.memberships, userId, org).value))
    ensures GetCurrentOrgId(db, auth, cookie).Some? ==>
      (s.result.Success? <==> IsMember(db, userId, GetCurrentOrgId(db, auth, cookie).value))
    ensures s.result.Failure? ==> s.db == db
    ensures Valid(db) ==> Valid(s.db)
  {
    match GetCurrentOrgId(db, auth, cookie)
    case None => Step(Failure(Thrown("Unauthorized")), db)
    case Some(org) =>
      match DeleteMembership(db, userId, org)
      case Failure(e) => Step(Failure(DbFailed(e)), db)
      case Success(db') => Step(Success(()), db')
  }

  /** Adding another user's membership leaves the caller's active
      organization as it was. */
  lemma CurrentOrgAfterAppend(db: Db, auth: Option<UserId>, cookie: Option<OrgId>, m: Membership)
    requires auth.Some? ==> m.userId != auth.value
    ensures GetCurrentOrgId(db.(memberships := db.memberships + [m]), auth, cookie) == GetCurrentOrgId(db, auth, cookie)
  {
    if auth.Some? {
      var db1 := db.(memberships := db.memberships + [m]);
      var uid := auth.value;
      forall o ensures FindMembership(db1, uid, o) == FindMembership(db, uid, o) {
        MembershipIndexAppend(db.memberships, m, uid, o);
      }
      FirstMembershipIndexAppend(db.memberships, m, uid);
      assert StoredPreference(db1, uid) == StoredPreference(db, uid);
    }
  }

  /** Inviting a known user and then removing that user gives back the
      database as it was. */
  lemma AddThenRemove(db: Db, auth: Option<UserId>, cookie: Option<OrgId>, form: InviteForm, ghostId: UserId)
    requires AddTeamMember(db, auth, cookie, form, ghostId).result == Success(Added)
    requires ParseInvite(form).Success? && GetUserByEmail(db, ParseInvite(form).value.email).Some?
    ensures var db1 := AddTeamMember(db, auth, cookie, form, ghostId).db;
            RemoveTeamMember(db1, auth, cookie, GetUserByEmail(db, ParseInvite(form).value.email).value.id)
              == Step(Success(()), db)
  {
    var org := GetCurrentOrgId(db, auth, cookie).value;
    var inv := ParseInvite(form).value;
    var u := GetUserByEmail(db, inv.email).value;
    var m := Membership(u.id, org, inv.role);
    var db1 := AddTeamMember(db, auth, cookie, form, ghostId).db;
    assert db1 == db.(memberships := db.memberships + [m]);
    // the caller already belongs to `org`, the invitee did not
    assert m.userId != auth.value;
    CurrentOrgAfterAppend(db, auth, cookie, m);
    MembershipIndexAppended(db.memberships, m);
    assert RemoveAt(db.memberships + [m], |db.memberships|) == db.memberships;
  }
}
