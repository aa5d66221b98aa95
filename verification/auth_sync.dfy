/** The sign-in actions of app/auth/actions.ts. `syncUser` reconciles the
    application's user row with the identity the authentication provider
    returned: a placeholder user created by an invitation (same e-mail,
    other id) is migrated to the provider's id with its memberships; an
    unknown e-mail gets a user, a default organization and an ADMIN
    membership. `login` and `signup` call the provider (an input here) and
    then `syncUser`. */
module AuthSync {
  import opened Outcomes
  import opened Text
  import opened Store
  import opened OrganizationActions
  import opened OrgPreference

  /** The profile data stored with the provider's user. */
  datatype Metadata = Metadata(firstName: Option<string>, lastName: Option<string>, companyName: Option<string>)

  /** The e-mail the migrated row carries until the placeholder is gone. */
  function MigrationEmail(email: string): (r: string)
    ensures r != email && |r| > |email|
  {
    email + ".migration"
  }

  /** The row created for the provider's id when a placeholder is migrated:
      the submitted names win when they are non-empty. */
  function MigratedUser(existing: User, authUserId: UserId, email: string, firstName: string, lastName: string): (u: User)
    ensures u.id == authUserId && u.email == MigrationEmail(email)
    ensures u.lastViewedOrgId == existing.lastViewedOrgId
    ensures u.firstName == (if firstName != "" then Some(firstName) else existing.firstName)
    ensures u.lastName == (if lastName != "" then Some(lastName) else existing.lastName)
  {
    User(authUserId, MigrationEmail(email),
         if firstName != "" then Some(firstName) else existing.firstName,
         if lastName != "" then Some(lastName) else existing.lastName,
         existing.lastViewedOrgId)
  }

  /** The name of the organization created for a new user. */
  function DefaultOrgName(firstName: string, companyName: string): (r: string)
    ensures companyName != "" ==> r == companyName
    ensures companyName == "" ==> r == firstName + "'s Company"
  {
    if companyName != "" then companyName else firstName + "'s Company"
  }

  /** The first three writes of case A: a row for the new id under a
      temporary e-mail, the memberships moved to it, the placeholder
      deleted. */
  function MoveToNewId(db: Db, existing: User, authUserId: UserId, email: string, firstName: string, lastName: string): (r: Result<Db, DbError>)
    ensures r.Success? ==>
      && r.value.memberships == Reassign(db.memberships, existing.id, authUserId)
      && r.value.orgs == db.orgs && r.value.customers == db.customers && r.value.invoices == db.invoices
    // the new id carries the migrated row, and the placeholder is gone
    ensures r.Success? && existing.id != authUserId ==>
      GetUser(r.value, authUserId) == Some(MigratedUser(existing, authUserId, email, firstName, lastName))
    ensures r.Success? && Valid(db) ==> existing.id !in UserIds(r.value.users)
    // the users table: the placeholder's row removed, the migrated row
    // appended, every other row kept in its order
    ensures r.Success? ==> authUserId !in UserIds(db.users)
    ensures r.Success? && existing.id != authUserId ==>
      && UserIndex(db.users, existing.id).Some?
      && r.value.users == RemoveAt(db.users, UserIndex(db.users, existing.id).value)
                          + [MigratedUser(existing, authUserId, email, firstName, lastName)]
    ensures r.Success? && Valid(db) ==> Valid(r.value)
  {
    var mu := MigratedUser(existing, authUserId, email, firstName, lastName);
    var db1 :- CreateUser(db, mu);
    var db2 :- ReassignMemberships(db1, existing.id, authUserId);
    var r := DeleteUser(db2, existing.id);
    if r.Success? then
      OnlyRowWithId(db.users, mu, r.value.users);
      if existing.id != authUserId then RemoveBeforeAppended(db.users, mu, existing.id); r else r
    else r
  }

  /** Removing an older row from a table with a row appended is removing
      it before the append. */
  lemma RemoveBeforeAppended(users: seq<User>, added: User, id: UserId)
    requires id != added.id && id in UserIds(users + [added])
    ensures UserIndex(users, id).Some?
    ensures UserIndex(users + [added], id) == UserIndex(users, id)
    ensures RemoveAt(users + [added], UserIndex(users, id).value) == RemoveAt(users, UserIndex(users, id).value) + [added]
  {
    var w :| w in users + [added] && w.id == id;
    assert w in users;
    var i := UserIndex(users, id).value;
    UserIndexIs(users + [added], id, i);
    assert RemoveAt(users + [added], i) == RemoveAt(users, i) + [added];
  }

  /** A row added under a fresh id is, among rows kept from the table and
      that row, the only one with that id. */
  lemma OnlyRowWithId(users: seq<User>, added: User, rest: seq<User>)
    requires added.id !in UserIds(users)
    requires forall w :: w in rest ==> w in users + [added]
    ensures forall w :: w in rest && w.id == added.id ==> w == added
  {
  }

  /** The last write of case A: the new row takes the real e-mail. */
  function RestoreEmail(db: Db, authUserId: UserId, email: string): (r: Result<Db, DbError>)
    ensures r.Success? ==>
      && r.value.memberships == db.memberships && r.value.orgs == db.orgs
      && r.value.customers == db.customers && r.value.invoices == db.invoices
      && GetUserByEmail(r.value, email).Some? && GetUserByEmail(r.value, email).value.id == authUserId
    // only the e-mail of the row changes, and the same ids remain
    ensures r.Success? ==>
      GetUser(db, authUserId).Some? && GetUser(r.value, authUserId) == Some(GetUser(db, authUserId).value.(email := email))
    ensures r.Success? ==> UserIds(r.value.users) == UserIds(db.users)
    ensures r.Success? ==>
      && UserIndex(db.users, authUserId).Some?
      && r.value.users == db.users[UserIndex(db.users, authUserId).value := GetUser(db, authUserId).value.(email := email)]
    ensures r.Success? && Valid(db) ==> Valid(r.value)
  {
    match GetUser(db, authUserId)
    case None => Failure(RecordNotFound)
    case Some(moved) =>
      var u := moved.(email := email);
      var r := PutUser(db, u);
      if r.Success? then
        PutUserEmail(db, u);
        var i := UserIndex(db.users, authUserId).value;
        UserIndexAfterPut(db.users, i, u);
        SameIds(db.users, r.value.users);
        r
      else r
  }

  /** Case A: the placeholder `existing` becomes the user `authUserId`. */
  function Migrate(db: Db, existing: User, authUserId: UserId, email: string, firstName: string, lastName: string): (r: Result<Db, DbError>)
    ensures r.Success? ==>
      && r.value.memberships == Reassign(db.memberships, existing.id, authUserId)
      && r.value.orgs == db.orgs && r.value.customers == db.customers && r.value.invoices == db.invoices
      && GetUserByEmail(r.value, email).Some? && GetUserByEmail(r.value, email).value.id == authUserId
    // the row of the new id: the migrated names and preference, the real e-mail
    ensures r.Success? && existing.id != authUserId ==>
      GetUser(r.value, authUserId) == Some(MigratedUser(existing, authUserId, email, firstName, lastName).(email := email))
    // the placeholder is gone
    ensures r.Success? && Valid(db) ==> existing.id !in UserIds(r.value.users)
    // the users table: the placeholder's row gives way to the new id's row,
    // appended; every other row is kept in its order
    ensures r.Success? && existing.id != authUserId ==>
      && UserIndex(db.users, existing.id).Some?
      && r.value.users == RemoveAt(db.users, UserIndex(db.users, existing.id).value)
                          + [MigratedUser(existing, authUserId, email, firstName, lastName).(email := email)]
    ensures r.Success? && Valid(db) ==> Valid(r.value)
  {
    var db3 :- MoveToNewId(db, existing, authUserId, email, firstName, lastName);
    var r := RestoreEmail(db3, authUserId, email);
    if r.Success? && existing.id != authUserId then
      var mu := MigratedUser(existing, authUserId, email, firstName, lastName);
      var kept := RemoveAt(db.users, UserIndex(db.users, existing.id).value);
      RemoveAtIds(db.users, UserIndex(db.users, existing.id).value);
      PutAppended(kept, mu, mu.(email := email));
      r
    else r
  }

  /** Under the schema's constraints the first three writes succeed when
      the new id and the temporary e-mail are free; afterwards the new id
      replaces the placeholder's and nobody holds the e-mail. */
  lemma MoveSucceeds(db: Db, existing: User, authUserId: UserId, email: string, firstName: string, lastName: string)
    requires Valid(db) && existing in db.users && existing.email == email
    requires authUserId !in UserIds(db.users) && MigrationEmail(email) !in Emails(db.users)
    ensures MoveToNewId(db, existing, authUserId, email, firstName, lastName).Success?
    ensures var r := MoveToNewId(db, existing, authUserId, email, firstName, lastName).value;
      && UserIds(r.users) == UserIds(db.users) - {existing.id} + {authUserId}
      && forall k :: 0 <= k < |r.users| ==> r.users[k].email != email
  {
    MoveWrites(db, existing, authUserId, email, firstName, lastName);
    var mu := MigratedUser(existing, authUserId, email, firstName, lastName);
    var r := MoveToNewId(db, existing, authUserId, email, firstName, lastName).value;
    var e :| 0 <= e < |db.users| && db.users[e] == existing;
    assert existing.id != authUserId;
    var i := UserIndex(db.users, existing.id).value;
    assert i == e;
    var kept := RemoveAt(db.users, i);
    RemoveUserIds(db.users, i);
    UserIdsAppend(kept, mu);
    OthersKeepEmails(db.users, i, mu);
  }

  /** Under unique e-mails, once the row at `i` is removed and a row with
      another e-mail appended, nobody holds the removed row's e-mail. */
  lemma OthersKeepEmails(users: seq<User>, i: nat, added: User)
    requires UniqueUsers(users) && i < |users| && added.email != users[i].email
    ensures var rest := RemoveAt(users, i) + [added];
      forall k :: 0 <= k < |rest| ==> rest[k].email != users[i].email
  {
    var kept := RemoveAt(users, i);
    var rest := kept + [added];
    forall k | 0 <= k < |rest| ensures rest[k].email != users[i].email {
      if k < |kept| {
        var j := if k < i then k else k + 1;
        assert rest[k] == users[j];
      } else {
        assert rest[k] == added;
      }
    }
  }

  /** The first three writes of case A succeed under the schema's
      constraints when the new id and the temporary e-mail are free. */
  lemma MoveWrites(db: Db, existing: User, authUserId: UserId, email: string, firstName: string, lastName: string)
    requires Valid(db) && existing in db.users
    requires authUserId !in UserIds(db.users) && MigrationEmail(email) !in Emails(db.users)
    ensures MoveToNewId(db, existing, authUserId, email, firstName, lastName).Success?
  {
    var mu := MigratedUser(existing, authUserId, email, firstName, lastName);
    var db1 := CreateUser(db, mu).value;
    assert authUserId in UserIds(db1.users) by { assert db1.users[|db.users|] == mu; }
    var db2 := ReassignMemberships(db1, existing.id, authUserId).value;
    assert existing.id in UserIds(db2.users) by { assert existing in db2.users; }
  }

  /** Under the schema's constraints the last write succeeds when the new
      id exists and nobody holds the e-mail; it keeps the ids. */
  lemma RestoreSucceeds(db: Db, authUserId: UserId, email: string)
    requires Valid(db) && authUserId in UserIds(db.users)
    requires forall k :: 0 <= k < |db.users| ==> db.users[k].email != email
    ensures RestoreEmail(db, authUserId, email).Success?
    ensures UserIds(RestoreEmail(db, authUserId, email).value.users) == UserIds(db.users)
  {
    var u := GetUser(db, authUserId).value.(email := email);
    var r := PutUser(db, u).value;
    var i := UserIndex(db.users, authUserId).value;
    assert forall k :: 0 <= k < |db.users| ==> r.users[k].id == db.users[k].id;
    SameIds(db.users, r.users);
  }

  /** Under the schema's constraints, migrating the placeholder that holds
      the e-mail succeeds when the new id and the temporary e-mail are
      free, and the new id then replaces the placeholder's. */
  lemma MigrateSucceeds(db: Db, existing: User, authUserId: UserId, email: string, firstName: string, lastName: string)
    requires Valid(db) && existing in db.users && existing.email == email
    requires authUserId !in UserIds(db.users) && MigrationEmail(email) !in Emails(db.users)
    ensures Migrate(db, existing, authUserId, email, firstName, lastName).Success?
    ensures var r := Migrate(db, existing, authUserId, email, firstName, lastName).value;
      UserIds(r.users) == UserIds(db.users) - {existing.id} + {authUserId}
  {
    MoveSucceeds(db, existing, authUserId, email, firstName, lastName);
    var db3 := MoveToNewId(db, existing, authUserId, email, firstName, lastName).value;
    RestoreSucceeds(db3, authUserId, email);
  }

  /** Case C: a new user with a default organization it administers and
      prefers. */
  function Onboard(db: Db, authUserId: UserId, email: string, firstName: string, lastName: string,
                   companyName: string, newOrgId: OrgId): (r: Result<Db, DbError>)
    ensures r.Success? ==>
      && authUserId !in UserIds(db.users) && email !in Emails(db.users) && newOrgId !in db.orgs
      && r.value.orgs == db.orgs[newOrgId := NewOrgDetails(Some(DefaultOrgName(firstName, companyName)))]
      && r.value.memberships == db.memberships + [Membership(authUserId, newOrgId, ADMIN)]
      && r.value.customers == db.customers && r.value.invoices == db.invoices
      && GetUser(r.value, authUserId) == Some(User(authUserId, email, Some(firstName), Some(lastName), Some(newOrgId)))
      && GetUserByEmail(r.value, email).Some? && GetUserByEmail(r.value, email).value.id == authUserId
    // the users table: the old rows, then the new user's
    ensures r.Success? ==>
      r.value.users == db.users + [User(authUserId, email, Some(firstName), Some(lastName), Some(newOrgId))]
    ensures Valid(db) && authUserId !in UserIds(db.users) && email !in Emails(db.users) && newOrgId !in db.orgs ==>
      r.Success?
    ensures r.Success? && Valid(db) ==> Valid(r.value)
  {
    var newUser := User(authUserId, email, Some(firstName), Some(lastName), None);
    var db1 :- CreateUser(db, newUser);
    CreateUserFound(db, newUser);
    var db2 :- CreateOrg(db1, newOrgId, NewOrgDetails(Some(DefaultOrgName(firstName, companyName))));
    var db3 :- CreateMembership(db2, Membership(authUserId, newOrgId, ADMIN));
    assert GetUser(db3, authUserId) == Some(newUser);
    PutAppended(db.users, newUser, newUser.(lastViewedOrgId := Some(newOrgId)));
    var r := SetLastViewed(db3, authUserId, newOrgId);
    if r.Success? then SetLastViewedEmail(db3, authUserId, newOrgId); r else r
  }

  /** `syncUser`, one transaction: its failure leaves the database as it
      was (the caller keeps the original). */
  function SyncUser(db: Db, authUserId: UserId, email: string, meta: Metadata, newOrgId: OrgId): (r: Result<Db, DbError>)
    // case B: the e-mail already belongs to this id; nothing to do
    ensures GetUserByEmail(db, email).Some? && GetUserByEmail(db, email).value.id == authUserId ==>
      r == Success(db)
    // afterwards the e-mail belongs to the provider's id
    ensures r.Success? ==>
      GetUserByEmail(r.value, email).Some? && GetUserByEmail(r.value, email).value.id == authUserId
    // case A: the placeholder's memberships move to the provider's id
    ensures r.Success? && GetUserByEmail(db, email).Some? ==>
      r.value.memberships == Reassign(db.memberships, GetUserByEmail(db, email).value.id, authUserId)
      && r.value.orgs == db.orgs
    // case A: the names prefer the metadata, the preference is copied, and
    // the placeholder is gone
    ensures r.Success? && GetUserByEmail(db, email).Some? && GetUserByEmail(db, email).value.id != authUserId ==>
      var existing := GetUserByEmail(db, email).value;
      && GetUser(r.value, authUserId)
           == Some(User(authUserId, email,
                        if Truthy(meta.firstName) then meta.firstName else existing.firstName,
                        if Truthy(meta.lastName) then meta.lastName else existing.lastName,
                        existing.lastViewedOrgId))
      && (Valid(db) ==> existing.id !in UserIds(r.value.users))
    // case A: every other row of the users table is kept, in its order
    ensures r.Success? && GetUserByEmail(db, email).Some? && GetUserByEmail(db, email).value.id != authUserId ==>
      var existing := GetUserByEmail(db, email).value;
      && UserIndex(db.users, existing.id).Some?
      && r.value.users == RemoveAt(db.users, UserIndex(db.users, existing.id).value) + [GetUser(r.value, authUserId).value]
    // case C: a new organization with the new user as its administrator
    ensures r.Success? && GetUserByEmail(db, email).None? ==>
      && newOrgId !in db.orgs && newOrgId in r.value.orgs
      && r.value.memberships == db.memberships + [Membership(authUserId, newOrgId, ADMIN)]
      && StoredPreference(r.value, authUserId) == Some(newOrgId)
    // case C: the user row from the metadata, and the default organization name
    ensures r.Success? && GetUserByEmail(db, email).None? ==>
      && GetUser(r.value, authUserId)
           == Some(User(authUserId, email, Some(OrEmpty(meta.firstName)), Some(OrEmpty(meta.lastName)), Some(newOrgId)))
      && r.value.orgs[newOrgId].name == Some(DefaultOrgName(OrEmpty(meta.firstName), OrEmpty(meta.companyName)))
      && r.value.users == db.users + [GetUser(r.value, authUserId).value]
    ensures r.Success? ==> r.value.customers == db.customers && r.value.invoices == db.invoices
    ensures r.Success? && Valid(db) ==> Valid(r.value)
  {
    var firstName := OrEmpty(meta.firstName);
    var lastName := OrEmpty(meta.lastName);
    var companyName := OrEmpty(meta.companyName);
    match GetUserByEmail(db, email)
    case Some(existing) =>
      if existing.id == authUserId then Success(db)
      else
        Migrate(db, existing, authUserId, email, firstName, lastName)
    case None =>
      Onboard(db, authUserId, email, firstName, lastName, companyName, newOrgId)
  }

  /** Syncing twice is syncing once: the second call finds the e-mail
      already on the provider's id. */
  lemma SyncIdempotent(db: Db, authUserId: UserId, email: string, meta: Metadata, newOrgId: OrgId, newOrgId2: OrgId)
    requires SyncUser(db, authUserId, email, meta, newOrgId).Success?
    ensures var db1 := SyncUser(db, authUserId, email, meta, newOrgId).value;
            SyncUser(db1, authUserId, email, meta, newOrgId2) == Success(db1)
  {
  }

  /** Under the schema's constraints `syncUser` fails only on a taken id:
      in case A the new id and the temporary e-mail must be free, in case C
      the new id and the generated organization id. */
  lemma SyncSucceeds(db: Db, authUserId: UserId, email: string, meta: Metadata, newOrgId: OrgId)
    requires Valid(db)
    requires GetUserByEmail(db, email).Some? && GetUserByEmail(db, email).value.id != authUserId ==>
      authUserId !in UserIds(db.users) && MigrationEmail(email) !in Emails(db.users)
    requires GetUserByEmail(db, email).None? ==> authUserId !in UserIds(db.users) && newOrgId !in db.orgs
    ensures SyncUser(db, authUserId, email, meta, newOrgId).Success?
  {
    match GetUserByEmail(db, email)
    case Some(existing) =>
      if existing.id != authUserId {
        MigrateSucceeds(db, existing, authUserId, email, OrEmpty(meta.firstName), OrEmpty(meta.lastName));
      }
    case None =>
  }

  /** What the authentication provider answered. */
  datatype AuthOutcome =
    | AuthRejected(message: string)
    | NoAuthUser
    | AuthUser(id: UserId, email: string, metadata: Metadata)

  /** What the sign-in forms receive: an error to show, or the redirect. */
  datatype FormReply = FormError(message: string) | RedirectTo(path: string)

  /** `login`: a provider error is shown; otherwise the user is synced (a
      failure of the sync is ignored) and sent to the dashboard. */
  function Login(db: Db, outcome: AuthOutcome, newOrgId: OrgId): (s: Step<FormReply>)
    ensures s.result.Success?
    ensures outcome.AuthRejected? ==> s == Step(Success(FormError(outcome.message)), db)
    ensures outcome.NoAuthUser? ==> s == Step(Success(FormError("Erreur connexion")), db)
    ensures outcome.AuthUser? ==> s.result.value == RedirectTo("/dashboard")
    ensures outcome.AuthUser? ==>
      var sync := SyncUser(db, outcome.id, outcome.email, outcome.metadata, newOrgId);
      s.db == (if sync.Success? then sync.value else db)
    ensures Valid(db) ==> Valid(s.db)
  {
    match outcome
    case AuthRejected(m) => Step(Success(FormError(m)), db)
    case NoAuthUser => Step(Success(FormError("Erreur connexion")), db)
    case AuthUser(id, email, meta) =>
      match SyncUser(db, id, email, meta, newOrgId)
      case Success(db') => Step(Success(RedirectTo("/dashboard")), db')
      case Failure(_) => Step(Success(RedirectTo("/dashboard")), db)
  }

  /** The sign-up form; the e-mail the provider accepted is the form's. */
  datatype SignupForm = SignupForm(email: string, firstName: Option<string>, lastName: Option<string>, companyName: Option<string>)

  /** `signup`: a provider error is shown; otherwise the user is synced with
      the form's e-mail and names, and a failed sync is reported. */
  function Signup(db: Db, outcome: AuthOutcome, form: SignupForm, newOrgId: OrgId): (s: Step<FormReply>)
    ensures s.result.Success?
    ensures outcome.AuthRejected? ==> s == Step(Success(FormError(outcome.message)), db)
    ensures outcome.NoAuthUser? ==> s == Step(Success(FormError("Erreur création Auth")), db)
    ensures outcome.AuthUser? ==>
      var sync := SyncUser(db, outcome.id, form.email, Metadata(form.firstName, form.lastName, form.companyName), newOrgId);
      && (sync.Success? ==> s == Step(Success(RedirectTo("/dashboard")), sync.value))
      && (sync.Failure? ==> s == Step(Success(FormError("Erreur lors de l'initialisation du compte.")), db))
    ensures s.result.value.RedirectTo? ==> s.result.value.path == "/dashboard"
    ensures Valid(db) ==> Valid(s.db)
  {
    match outcome
    case AuthRejected(m) => Step(Success(FormError(m)), db)
    case NoAuthUser => Step(Success(FormError("Erreur création Auth")), db)
    case AuthUser(id, _, _) =>
      match SyncUser(db, id, form.email, Metadata(form.firstName, form.lastName, form.companyName), newOrgId)
      case Success(db') => Step(Success(RedirectTo("/dashboard")), db')
      case Failure(_) => Step(Success(FormError("Erreur lors de l'initialisation du compte.")), db)
  }

  /** A new address signs up into an organization of its own: the
      dashboard it lands on works in the new organization, which the new
      user administers. */
  lemma SignupOwnOrganization(db: Db, outcome: AuthOutcome, form: SignupForm, newOrgId: OrgId)
    requires Valid(db) && outcome.AuthUser?
    requires GetUserByEmail(db, form.email).None?
    requires outcome.id !in UserIds(db.users) && newOrgId !in db.orgs
    ensures var s := Signup(db, outcome, form, newOrgId);
      && s.result == Success(RedirectTo("/dashboard"))
      && FindMembership(s.db, outcome.id, newOrgId) == Some(Membership(outcome.id, newOrgId, ADMIN))
      && RequireUserOrganization(s.db, Some(outcome.id)).result == Success(Some(newOrgId))
  {
    var meta := Metadata(form.firstName, form.lastName, form.companyName);
    SyncSucceeds(db, outcome.id, form.email, meta, newOrgId);
    var db1 := SyncUser(db, outcome.id, form.email, meta, newOrgId).value;
    assert Signup(db, outcome, form, newOrgId).db == db1;
    NewcomerLands(db, db1, outcome.id, newOrgId);
  }

  /** A user with no membership before, given one ADMIN membership that is
      also the stored preference, works in that organization. */
  lemma NewcomerLands(db: Db, db1: Db, uid: UserId, o: OrgId)
    requires Valid(db) && Valid(db1) && uid !in UserIds(db.users)
    requires db1.memberships == db.memberships + [Membership(uid, o, ADMIN)]
    requires StoredPreference(db1, uid) == Some(o)
    ensures FindMembership(db1, uid, o) == Some(Membership(uid, o, ADMIN))
    ensures RequireUserOrganization(db1, Some(uid)).result == Success(Some(o))
  {
    var m := Membership(uid, o, ADMIN);
    // the new user had no membership before
    assert forall k :: 0 <= k < |db.memberships| ==> db.memberships[k].userId != uid;
    MembershipIndexAppended(db.memberships, m);
    assert FirstMembershipIndex(db1.memberships, uid) == Some(|db.memberships|);
  }
}
