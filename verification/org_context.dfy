/** `requireUserOrganization` of lib/context/organization.ts: the active
    organization of the signed-in user, from the stored preference when the
    user still belongs to it, else from the earliest membership, which then
    becomes the stored preference. */
module OrgPreference {
  import opened Outcomes
  import opened Text
  import opened Store

  /** The preference is set and the user is still a member of it. */
  predicate PreferenceHolds(db: Db, uid: UserId) {
    var pref := StoredPreference(db, uid);
    Truthy(pref) && FindMembership(db, uid, pref.value).Some?
  }

  function RequireUserOrganization(db: Db, auth: Option<UserId>): (s: Step<Option<OrgId>>)
    // no session: redirect to the login page, nothing written
    ensures auth.None? ==> s == Step(Failure(Redirected("/auth/login")), db)
    // the shared invariant: null, or an organization the user belongs to
    ensures auth.Some? && s.result.Success? && s.result.value.Some? ==>
      IsMember(db, auth.value, s.result.value.value)
    // a preference that still holds is returned as it is, with no write
    ensures auth.Some? && PreferenceHolds(db, auth.value) ==>
      s == Step(Success(StoredPreference(db, auth.value)), db)
    // no membership at all: null, with no write
    ensures auth.Some? && !PreferenceHolds(db, auth.value) && FirstMembership(db, auth.value).None? ==>
      s == Step(Success(None), db)
    // otherwise the earliest membership wins and becomes the preference
    ensures auth.Some? && !PreferenceHolds(db, auth.value) && FirstMembership(db, auth.value).Some? ==>
      var o := FirstMembership(db, auth.value).value.organizationId;
      && (s.result.Success? ==> s.result.value == Some(o) && StoredPreference(s.db, auth.value) == Some(o))
      && (Valid(db) ==> s.result.Success?)
    ensures s.result.Failure? ==> s.db == db
    ensures auth.Some? ==> OnlyPreferenceChanged(db, s.db, auth.value)
    ensures Valid(db) ==> Valid(s.db)
  {
    match auth
    case None => Step(Failure(Redirected("/auth/login")), db)
    case Some(uid) =>
      var pref := StoredPreference(db, uid);
      if Truthy(pref) && FindMembership(db, uid, pref.value).Some? then
        Step(Success(pref), db)
      else
        match FirstMembership(db, uid)
        case None => Step(Success(None), db)
        case Some(m) =>
          match SetLastViewed(db, uid, m.organizationId)
          case Failure(e) => Step(Failure(DbFailed(e)), db)
          case Success(db') => Step(Success(Some(m.organizationId)), db')
  }
}

/** `getUserContext` of lib/context/context.ts: the signed-in user with the
    organization and membership the dashboard works in. */
module UserContext {
  import opened Outcomes
  import opened Text
  import opened Store

  datatype Context = Context(user: User, organization: Option<Organization>, membership: Option<Membership>)

  /** `memberships.find(m => m.organizationId === o)`. */
  function FindByOrg(ms: seq<Membership>, o: OrgId): (r: Option<Membership>)
    ensures r.Some? ==> r.value in ms && r.value.organizationId == o
    ensures r.None? <==> forall k :: 0 <= k < |ms| ==> ms[k].organizationId != o
  {
    if |ms| == 0 then None
    else if ms[0].organizationId == o then Some(ms[0])
    else
      assert forall k :: 1 <= k < |ms| ==> ms[k] == ms[1..][k - 1];
      FindByOrg(ms[1..], o)
  }

  /** The context for organization `o` among the user's memberships `ms`. */
  function ContextFor(db: Db, user: User, ms: seq<Membership>, o: OrgId): (c: Context)
    ensures c.user == user
    ensures c.organization.Some? ==>
      && c.organization.value.id == o
      && o in db.orgs && c.organization.value.details == db.orgs[o]
      && c.membership.Some? && c.membership.value in ms && c.membership.value.organizationId == o
    ensures (exists k :: 0 <= k < |ms| && ms[k].organizationId == o) && o in db.orgs ==> c.organization.Some?
  {
    var mem := FindByOrg(ms, o);
    var org := if mem.Some? && o in db.orgs then Some(Organization(o, db.orgs[o])) else None;
    Context(user, org, mem)
  }

  /** The stored preference is set and names one of `ms`. */
  predicate PreferenceValid(user: User, ms: seq<Membership>) {
    Truthy(user.lastViewedOrgId) && exists k :: 0 <= k < |ms| && ms[k].organizationId == user.lastViewedOrgId.value
  }

  function GetUserContext(db: Db, auth: Option<UserId>): (s: Step<Context>)
    // no session or no user row: redirect to the login page
    ensures auth.None? || GetUser(db, auth.value).None? ==> s == Step(Failure(Redirected("/login")), db)
    ensures auth.Some? && GetUser(db, auth.value).Some? ==> s.result.Success?
    ensures s.result.Success? ==> auth.Some? && Some(s.result.value.user) == GetUser(db, auth.value)
    // the shared invariant: the organization is one the user belongs to, and
    // the membership returned is that very membership
    ensures s.result.Success? && s.result.value.organization.Some? ==>
      var c := s.result.value;
      && IsMember(db, c.user.id, c.organization.value.id)
      && c.membership.Some? && SamePair(c.membership.value, c.user.id, c.organization.value.id)
      && c.membership.value in db.memberships
    // a valid preference is kept, with no write
    ensures s.result.Success? && PreferenceValid(s.result.value.user, MembershipsOf(db.memberships, auth.value)) ==>
      && s.db == db
      && (s.result.value.organization.Some? ==>
            Some(s.result.value.organization.value.id) == s.result.value.user.lastViewedOrgId)
      && (Valid(db) ==> s.result.value.organization.Some?)
    // otherwise the first membership is chosen and stored as the preference
    ensures (s.result.Success? && !PreferenceValid(s.result.value.user, MembershipsOf(db.memberships, auth.value))
             && FirstMembership(db, auth.value).Some?) ==>
      var o := FirstMembership(db, auth.value).value.organizationId;
      && (s.result.value.organization.Some? ==> s.result.value.organization.value.id == o)
      && (Valid(db) ==> s.result.value.organization.Some? && StoredPreference(s.db, auth.value) == Some(o))
    // with no valid preference and no membership: neither organization nor membership
    ensures s.result.Success? && FirstMembership(db, auth.value).None? ==>
      s.result.value.organization.None? && s.result.value.membership.None? && s.db == db
    ensures auth.Some? ==> OnlyPreferenceChanged(db, s.db, auth.value)
    ensures Valid(db) ==> Valid(s.db)
  {
    match auth
    case None => Step(Failure(Redirected("/login")), db)
    case Some(uid) =>
      match GetUser(db, uid)
      case None => Step(Failure(Redirected("/login")), db)
      case Some(user) =>
        var ms := MembershipsOf(db.memberships, uid);
        if PreferenceValid(user, ms) then
          Step(Success(ContextFor(db, user, ms, user.lastViewedOrgId.value)), db)
        else if |ms| == 0 then
          Step(Success(Context(user, None, None)), db)
        else
          AdoptFirst(db, user, ms)
  }

  /** The fallback of `getUserContext`: the first of the user's memberships
      `ms` is chosen and stored as the preference. The update is not
      awaited; only its effect is kept. */
  function AdoptFirst(db: Db, user: User, ms: seq<Membership>): (s: Step<Context>)
    requires GetUser(db, user.id) == Some(user)
    requires ms == MembershipsOf(db.memberships, user.id) && |ms| > 0
    ensures s.result.Success? && s.result.value.user == user
    ensures s.result.value.organization.Some? ==>
      var c := s.result.value;
      && c.organization.value.id == ms[0].organizationId
      && IsMember(db, user.id, c.organization.value.id)
      && c.membership.Some? && SamePair(c.membership.value, user.id, c.organization.value.id)
      && c.membership.value in db.memberships
    ensures Valid(db) ==>
      s.result.value.organization.Some? && StoredPreference(s.db, user.id) == Some(ms[0].organizationId)
    ensures OnlyPreferenceChanged(db, s.db, user.id)
    ensures Valid(db) ==> Valid(s.db)
  {
    var chosen := ms[0].organizationId;
    var c := ContextFor(db, user, ms, chosen);
    assert c.organization.Some? ==> IsMember(db, user.id, chosen) by {
      if c.organization.Some? {
        var m := c.membership.value;
        var k :| 0 <= k < |ms| && ms[k] == m;
        assert m in db.memberships;
        var j :| 0 <= j < |db.memberships| && db.memberships[j] == m;
        assert SamePair(db.memberships[j], user.id, chosen);
      }
    }
    assert Valid(db) ==> c.organization.Some? by {
      if Valid(db) {
        assert ms[0] in db.memberships;
        assert chosen in db.orgs;
      }
    }
    var db' := match SetLastViewed(db, user.id, chosen) case Success(d) => d case Failure(_) => db;
    Step(Success(c), db')
  }

}

/** `getUserWithOrg` of lib/auth-helpers.ts: the signed-in user flattened
    with the organization of its first membership. */
module AuthHelpers {
  import opened Outcomes
  import opened Store

  /** The user row, its memberships as loaded (only the first one), and the
      organization of that membership. */
  datatype UserWithOrg = UserWithOrg(user: User, memberships: seq<OrgId>, organizationId: OrgId)

  function GetUserWithOrg(db: Db, auth: Option<UserId>): (r: Option<UserWithOrg>)
    ensures r.Some? <==>
      auth.Some? && GetUser(db, auth.value).Some? && FirstMembership(db, auth.value).Some?
    ensures r.Some? ==>
      && r.value.user == GetUser(db, auth.value).value
      && r.value.organizationId == FirstMembership(db, auth.value).value.organizationId
      && r.value.memberships == [r.value.organizationId]
      && IsMember(db, r.value.user.id, r.value.organizationId)
  {
    match auth
    case None => None
    case Some(uid) =>
      match GetUser(db, uid)
      case None => None
      case Some(user) =>
        match FirstMembership(db, uid)
        case None => None
        case Some(m) => Some(UserWithOrg(user, [m.organizationId], m.organizationId))
  }
}
