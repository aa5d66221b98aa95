/** The organization server actions of app/actions/organization.ts:
    resolving the active organization from the cookie, the stored
    preference or the first membership; creating an organization with its
    creator as administrator; updating an organization's details, for
    administrators only; switching the active organization. The cookie
    `current_org_id` is an input, and the value a successful switch stores
    in it is the action's result. */
module OrganizationActions {
  import opened Outcomes
  import opened Text
  import opened Store

  /** `getCurrentOrgId`. */
  function GetCurrentOrgId(db: Db, auth: Option<UserId>, cookie: Option<OrgId>): (r: Option<OrgId>)
    // no session: null
    ensures auth.None? ==> r.None?
    // the shared invariant: null, or an organization the user belongs to
    ensures r.Some? ==> auth.Some? && IsMember(db, auth.value, r.value) && r.value != ""
    // the cookie wins when the user belongs to it
    ensures auth.Some? && Truthy(cookie) && IsMember(db, auth.value, cookie.value) ==> r == cookie
    // then the stored preference, when the user belongs to it
    ensures auth.Some? && !(Truthy(cookie) && IsMember(db, auth.value, cookie.value))
      && Truthy(StoredPreference(db, auth.value)) && IsMember(db, auth.value, StoredPreference(db, auth.value).value)
      ==> r == StoredPreference(db, auth.value)
    // then the first membership
    ensures auth.Some? && !(Truthy(cookie) && IsMember(db, auth.value, cookie.value))
      && !(Truthy(StoredPreference(db, auth.value)) && IsMember(db, auth.value, StoredPreference(db, auth.value).value))
      ==> r == (match FirstMembership(db, auth.value)
                case None => None
                case Some(m) => if m.organizationId == "" then None else Some(m.organizationId))
  {
    match auth
    case None => None
    case Some(uid) =>
      if Truthy(cookie) && FindMembership(db, uid, cookie.value).Some? then cookie
      else
        var pref := StoredPreference(db, uid);
        if Truthy(pref) && FindMembership(db, uid, pref.value).Some? then pref
        else
          match FirstMembership(db, uid)
          case None => None
          // `firstMembership?.organizationId || null`
          case Some(m) => if m.organizationId == "" then None else Some(m.organizationId)
  }

  /** `switchOrganization`: membership check, then the stored preference,
      then the cookie (the result). */
  function SwitchOrganization(db: Db, auth: Option<UserId>, orgId: OrgId): (s: Step<OrgId>)
    ensures auth.None? ==> s == Step(Failure(Thrown("Non autorisé")), db)
    ensures auth.Some? && !IsMember(db, auth.value, orgId) ==>
      s == Step(Failure(Thrown("Accès refusé à cette organisation")), db)
    ensures s.result.Success? ==>
      && auth.Some? && IsMember(db, auth.value, orgId)
      && s.result.value == orgId
      && StoredPreference(s.db, auth.value) == Some(orgId)
    ensures Valid(db) && auth.Some? && IsMember(db, auth.value, orgId) ==> s.result.Success?
    ensures s.result.Failure? ==> s.db == db
    ensures auth.Some? ==> OnlyPreferenceChanged(db, s.db, auth.value)
    ensures Valid(db) ==> Valid(s.db)
  {
    match auth
    case None => Step(Failure(Thrown("Non autorisé")), db)
    case Some(uid) =>
      match FindMembership(db, uid, orgId)
      case None => Step(Failure(Thrown("Accès refusé à cette organisation")), db)
      case Some(m) =>
        assert m.userId in UserIds(db.users) || !MembershipRefs(db) by {
          var k :| 0 <= k < |db.memberships| && db.memberships[k] == m;
        }
        match SetLastViewed(db, uid, orgId)
        case Failure(e) => Step(Failure(DbFailed(e)), db)
        case Success(db') => Step(Success(orgId), db')
  }

  /** The details of a newly created organization: only the name is set. */
  function NewOrgDetails(name: Option<string>): OrgDetails {
    OrgDetails(name, None, None, None, None, None, None, None, None, None, None, None, None)
  }

  /** The transaction of `createOrganization`: the organization, then the
      creator's ADMIN membership; either both rows are written or neither. */
  function CreateOrgWithAdmin(db: Db, uid: UserId, name: Option<string>, newOrgId: OrgId): (r: Result<Db, DbError>)
    ensures r.Success? ==> newOrgId !in db.orgs && uid in UserIds(db.users)
    ensures Valid(db) && newOrgId !in db.orgs && uid in UserIds(db.users) ==> r.Success?
    ensures r.Success? ==> r.value == db.(orgs := db.orgs[newOrgId := NewOrgDetails(name)],
                                          memberships := db.memberships + [Membership(uid, newOrgId, ADMIN)])
    ensures r.Success? && Valid(db) ==> Valid(r.value)
  {
    var db1 :- CreateOrg(db, newOrgId, NewOrgDetails(name));
    CreateMembership(db1, Membership(uid, newOrgId, ADMIN))
  }

  /** `createOrganization`: the organization (with the id the database
      generates, `newOrgId`) and the ADMIN membership in one transaction,
      then a switch to it. */
  function CreateOrganization(db: Db, auth: Option<UserId>, name: Option<string>, newOrgId: OrgId): (s: Step<OrgId>)
    ensures auth.None? ==> s == Step(Failure(Thrown("Non autorisé")), db)
    ensures s.result.Success? ==>
      && auth.Some?
      && s.result.value == newOrgId
      && newOrgId !in db.orgs
      && s.db.orgs == db.orgs[newOrgId := NewOrgDetails(name)]
      && s.db.memberships == db.memberships + [Membership(auth.value, newOrgId, ADMIN)]
      && StoredPreference(s.db, auth.value) == Some(newOrgId)
      && s.db.customers == db.customers && s.db.invoices == db.invoices
    // in the users table only the caller's preference changes
    ensures s.result.Success? ==>
      OnlyPreferenceChanged(db, s.db.(orgs := db.orgs, memberships := db.memberships), auth.value)
    // a failed transaction writes nothing; the switch runs after the commit,
    // so were it to fail the two rows would stay, but on a valid database it
    // cannot fail
    ensures s.result.Failure? ==>
      || s.db == db
      || (auth.Some? && CreateOrgWithAdmin(db, auth.value, name, newOrgId) == Success(s.db))
    ensures Valid(db) && s.result.Failure? ==> s.db == db
    ensures Valid(db) && auth.Some? && newOrgId !in db.orgs && auth.value in UserIds(db.users) ==>
      s.result.Success?
    ensures Valid(db) ==> Valid(s.db)
  {
    match auth
    case None => Step(Failure(Thrown("Non autorisé")), db)
    case Some(uid) =>
      match CreateOrgWithAdmin(db, uid, name, newOrgId)
      case Failure(e) => Step(Failure(DbFailed(e)), db)
      case Success(db1) =>
        var m := Membership(uid, newOrgId, ADMIN);
        assert db1.memberships[|db1.memberships| - 1] == m;
        var sw := SwitchOrganization(db1, auth, newOrgId);
        sw
  }

  /** `updateOrganization`: only an ADMIN member of `orgId` may overwrite its
      thirteen detail fields with the submitted ones. */
  function UpdateOrganization(db: Db, auth: Option<UserId>, orgId: OrgId, form: OrgDetails): (s: Step<string>)
    ensures auth.None? ==> s == Step(Failure(Thrown("Non autorisé")), db)
    // the administrator gate
    ensures auth.Some? && (FindMembership(db, auth.value, orgId).None? || FindMembership(db, auth.value, orgId).value.role != ADMIN) ==>
      s == Step(Failure(Thrown("Droit insuffisant")), db)
    ensures s.result.Success? ==>
      && auth.Some?
      && exists k :: 0 <= k < |db.memberships| && SamePair(db.memberships[k], auth.value, orgId)
                     && db.memberships[k].role == ADMIN
    // exactly the organization's details change, to the submitted ones
    ensures s.result.Success? ==>
      && s.result.value == "Entreprise mise à jour"
      && s.db == db.(orgs := db.orgs[orgId := form])
      && orgId in db.orgs
    ensures s.result.Failure? ==> s.db == db
    ensures Valid(db) && auth.Some? && orgId in db.orgs
      && (exists k :: 0 <= k < |db.memberships| && SamePair(db.memberships[k], auth.value, orgId)
                      && db.memberships[k].role == ADMIN)
      ==> s.result.Success?
    ensures Valid(db) ==> Valid(s.db)
  {
    match auth
    case None => Step(Failure(Thrown("Non autorisé")), db)
    case Some(uid) =>
      var m := FindMembership(db, uid, orgId);
      assert Valid(db) && m.Some? ==>
        forall k :: 0 <= k < |db.memberships| && SamePair(db.memberships[k], uid, orgId) ==> db.memberships[k] == m.value
      by {
        if Valid(db) && m.Some? {
          forall k | 0 <= k < |db.memberships| && SamePair(db.memberships[k], uid, orgId)
            ensures db.memberships[k] == m.value
          {
            MembershipUnique(db, k, uid, orgId);
          }
        }
      }
      if m.None? || m.value.role != ADMIN then Step(Failure(Thrown("Droit insuffisant")), db)
      else
        match UpdateOrg(db, orgId, form)
        case Failure(e) => Step(Failure(DbFailed(e)), db)
        case Success(db') => Step(Success("Entreprise mise à jour"), db')
  }
}
