/** The database the server actions read and write, as immutable values:
    users, organizations, memberships, customers and invoices, with the
    constraints the relational schema enforces (unique user ids and
    e-mails, one membership per (user, organization) pair, foreign keys).
    Each write is a function that either returns the new database or fails
    the way the ORM call fails; a transaction that fails leaves the
    original database in place. Sequences keep rows in creation order. */
module Store {
  import opened Outcomes
  import opened InvoiceSchema

  type UserId = string
  type OrgId = string
  type CustomerId = string

  datatype Role = ADMIN | MEMBER

  datatype User = User(
    id: UserId,
    email: string,
    firstName: Option<string>,
    lastName: Option<string>,
    lastViewedOrgId: Option<OrgId>)

  /** The editable fields of an organization. */
  datatype OrgDetails = OrgDetails(
    name: Option<string>,
    email: Option<string>,
    phone: Option<string>,
    logoLink: Option<string>,
    address: Option<string>,
    zipCode: Option<string>,
    city: Option<string>,
    country: Option<string>,
    siret: Option<string>,
    vatNumber: Option<string>,
    iban: Option<string>,
    bic: Option<string>,
    bankName: Option<string>)

  datatype Organization = Organization(id: OrgId, details: OrgDetails)

  datatype Membership = Membership(userId: UserId, organizationId: OrgId, role: Role)

  datatype CustomerFields = CustomerFields(
    companyName: string,
    firstName: string,
    lastName: string,
    email: string,
    phone: string,
    address: string,
    city: string,
    zipCode: string,
    country: string,
    vatNumber: string,
    note: string)

  datatype Customer = Customer(id: CustomerId, organizationId: OrgId, fields: CustomerFields)

  /** A stored invoice line: the price is in cents. */
  datatype StoredItem = StoredItem(description: string, quantity: int, price: int, taxRate: real)

  /** A stored invoice: subtotal, tax and total are in cents. */
  datatype Invoice = Invoice(
    organizationId: OrgId,
    customerId: CustomerId,
    number: string,
    status: Status,
    date: int,
    dueDate: int,
    note: Option<string>,
    subtotal: int,
    tax: int,
    total: int,
    items: seq<StoredItem>)

  datatype Db = Db(
    users: seq<User>,
    orgs: map<OrgId, OrgDetails>,
    memberships: seq<Membership>,
    customers: seq<Customer>,
    invoices: seq<Invoice>)

  /** How a database write fails: a unique constraint, a foreign key, or an
      update/delete of a row that does not exist. */
  datatype DbError = UniqueViolation | ForeignKeyViolation | RecordNotFound

  /** How a server action ends abnormally: a framework redirect, an error
      thrown by the action, a schema rejection thrown by `parse`, or an
      error raised by the database. */
  datatype ActionError =
    | Redirected(path: string)
    | Thrown(message: string)
    | InvalidInput(issues: set<Issue>)
    | DbFailed(error: DbError)

  /** A server action's outcome together with the database it leaves
      behind (writes made before a failure outside a transaction stay). */
  datatype Step<+T> = Step(result: Result<T, ActionError>, db: Db)

  // ---------------------------------------------------------------------
  // Lookups

  function UserIds(users: seq<User>): set<UserId> {
    set u | u in users :: u.id
  }

  function Emails(users: seq<User>): set<string> {
    set u | u in users :: u.email
  }

  /** The position of the user with this id. */
  function UserIndex(users: seq<User>, id: UserId): (r: Option<nat>)
    ensures r.Some? ==>
      && r.value < |users| && users[r.value].id == id
      && forall k :: 0 <= k < r.value ==> users[k].id != id
    ensures r.None? <==> id !in UserIds(users)
  {
    if |users| == 0 then None
    else if users[0].id == id then Some(0)
    else match UserIndex(users[1..], id)
      case None => (assert users == [users[0]] + users[1..]; None)
      case Some(k) => (assert forall j :: 1 <= j < k + 1 ==> users[j] == users[1..][j - 1]; Some(k + 1))
  }

  /** The position of the user with this e-mail (`findUnique({email})`). */
  function EmailIndex(users: seq<User>, email: string): (r: Option<nat>)
    ensures r.Some? ==> r.value < |users| && users[r.value].email == email
    ensures r.None? <==> email !in Emails(users)
  {
    if |users| == 0 then None
    else if users[0].email == email then Some(0)
    else match EmailIndex(users[1..], email)
      case None => (assert users == [users[0]] + users[1..]; None)
      case Some(k) => Some(k + 1)
  }

  function GetUser(db: Db, id: UserId): (r: Option<User>)
    ensures r.Some? ==> r.value in db.users && r.value.id == id
    ensures r.None? <==> id !in UserIds(db.users)
  {
    match UserIndex(db.users, id)
    case None => None
    case Some(i) => Some(db.users[i])
  }

  function GetUserByEmail(db: Db, email: string): (r: Option<User>)
    ensures r.Some? ==> r.value in db.users && r.value.email == email
    ensures r.None? <==> email !in Emails(db.users)
  {
    match EmailIndex(db.users, email)
    case None => None
    case Some(i) => Some(db.users[i])
  }

  predicate SamePair(m: Membership, u: UserId, o: OrgId) {
    m.userId == u && m.organizationId == o
  }

  /** The position of the membership of `u` in `o`
      (`findUnique({userId_organizationId})`). */
  function MembershipIndex(ms: seq<Membership>, u: UserId, o: OrgId): (r: Option<nat>)
    ensures r.Some? ==> r.value < |ms| && SamePair(ms[r.value], u, o)
    ensures r.None? <==> forall k :: 0 <= k < |ms| ==> !SamePair(ms[k], u, o)
  {
    if |ms| == 0 then None
    else if SamePair(ms[0], u, o) then Some(0)
    else match MembershipIndex(ms[1..], u, o)
      case None => (assert forall k :: 1 <= k < |ms| ==> ms[k] == ms[1..][k - 1]; None)
      case Some(k) => Some(k + 1)
  }

  function FindMembership(db: Db, u: UserId, o: OrgId): (r: Option<Membership>)
    ensures r.Some? ==> r.value in db.memberships && SamePair(r.value, u, o)
    ensures r.None? <==> forall k :: 0 <= k < |db.memberships| ==> !SamePair(db.memberships[k], u, o)
  {
    match MembershipIndex(db.memberships, u, o)
    case None => None
    case Some(i) => Some(db.memberships[i])
  }

  /** `u` belongs to `o`. */
  predicate IsMember(db: Db, u: UserId, o: OrgId) {
    exists k :: 0 <= k < |db.memberships| && SamePair(db.memberships[k], u, o)
  }

  /** The position of the earliest membership of `u`. */
  function FirstMembershipIndex(ms: seq<Membership>, u: UserId): (r: Option<nat>)
    ensures r.Some? ==>
      && r.value < |ms| && ms[r.value].userId == u
      && forall k :: 0 <= k < r.value ==> ms[k].userId != u
    ensures r.None? <==> forall k :: 0 <= k < |ms| ==> ms[k].userId != u
  {
    if |ms| == 0 then None
    else if ms[0].userId == u then Some(0)
    else match FirstMembershipIndex(ms[1..], u)
      case None => (assert forall k :: 1 <= k < |ms| ==> ms[k] == ms[1..][k - 1]; None)
      case Some(k) => (assert forall j :: 1 <= j < k + 1 ==> ms[j] == ms[1..][j - 1]; Some(k + 1))
  }

  /** The earliest-created membership of `u`, if any. */
  function FirstMembership(db: Db, u: UserId): (r: Option<Membership>)
    ensures r.Some? ==> r.value in db.memberships && r.value.userId == u
    ensures r.None? <==> forall k :: 0 <= k < |db.memberships| ==> db.memberships[k].userId != u
  {
    match FirstMembershipIndex(db.memberships, u)
    case None => None
    case Some(i) => Some(db.memberships[i])
  }

  /** The memberships of `u`, in creation order. */
  function MembershipsOf(ms: seq<Membership>, u: UserId): (r: seq<Membership>)
    ensures forall k :: 0 <= k < |r| ==> r[k] in ms && r[k].userId == u
    ensures forall k :: 0 <= k < |ms| && ms[k].userId == u ==> ms[k] in r
    ensures |r| == 0 <==> FirstMembershipIndex(ms, u).None?
    ensures |r| > 0 ==> r[0] == ms[FirstMembershipIndex(ms, u).value]
  {
    if |ms| == 0 then []
    else
      var rest := MembershipsOf(ms[1..], u);
      assert forall k :: 1 <= k < |ms| ==> ms[k] == ms[1..][k - 1];
      if ms[0].userId == u then [ms[0]] + rest else rest
  }

  /** The stored preference of `uid`, or `None` when there is no such user. */
  function StoredPreference(db: Db, uid: UserId): Option<OrgId> {
    match GetUser(db, uid)
    case None => None
    case Some(u) => u.lastViewedOrgId
  }

  /** Only the users table differs between `a` and `b`. */
  predicate OnlyUsersChanged(a: Db, b: Db) {
    && a.orgs == b.orgs && a.memberships == b.memberships
    && a.customers == b.customers && a.invoices == b.invoices
  }

  /** At most the stored preference of `uid` differs between `a` and `b`:
      every other table, every other user's row and every other field of
      `uid`'s row are kept. */
  predicate OnlyPreferenceChanged(a: Db, b: Db, uid: UserId) {
    && OnlyUsersChanged(a, b)
    && |b.users| == |a.users|
    && forall k :: 0 <= k < |a.users| ==>
         b.users[k] == if a.users[k].id == uid then a.users[k].(lastViewedOrgId := b.users[k].lastViewedOrgId) else a.users[k]
  }

  function CustomerIds(cs: seq<Customer>): set<CustomerId> {
    set c | c in cs :: c.id
  }

  // ---------------------------------------------------------------------
  // The schema's constraints

  ghost predicate UniqueUsers(users: seq<User>) {
    forall i, j :: 0 <= i < j < |users| ==> users[i].id != users[j].id && users[i].email != users[j].email
  }

  ghost predicate UniquePairs(ms: seq<Membership>) {
    forall i, j :: 0 <= i < j < |ms| ==>
      !(ms[i].userId == ms[j].userId && ms[i].organizationId == ms[j].organizationId)
  }

  ghost predicate MembershipRefs(db: Db) {
    forall k :: 0 <= k < |db.memberships| ==>
      db.memberships[k].userId in UserIds(db.users) && db.memberships[k].organizationId in db.orgs
  }

  ghost predicate CustomersOk(db: Db) {
    && (forall i, j :: 0 <= i < j < |db.customers| ==> db.customers[i].id != db.customers[j].id)
    && (forall k :: 0 <= k < |db.customers| ==> db.customers[k].organizationId in db.orgs)
  }

  ghost predicate InvoicesOk(db: Db) {
    forall k :: 0 <= k < |db.invoices| ==>
      db.invoices[k].organizationId in db.orgs && db.invoices[k].customerId in CustomerIds(db.customers)
  }

  /** Every constraint of the schema holds. */
  ghost predicate Valid(db: Db) {
    && UniqueUsers(db.users)
    && UniquePairs(db.memberships)
    && MembershipRefs(db)
    && CustomersOk(db)
    && InvoicesOk(db)
  }

  /** Under the schema's constraints, a membership lookup finds the only
      row for that pair. */
  lemma MembershipUnique(db: Db, i: nat, u: UserId, o: OrgId)
    requires Valid(db)
    requires i < |db.memberships| && SamePair(db.memberships[i], u, o)
    ensures FindMembership(db, u, o) == Some(db.memberships[i])
  {
    var j := MembershipIndex(db.memberships, u, o).value;
    assert !(j < i) && !(i < j);
  }

  /** Appending a membership of another pair does not move a pair's
      lookup, nor does appending anything after an existing one. */
  lemma {:induction false} MembershipIndexAppend(ms: seq<Membership>, m: Membership, u: UserId, o: OrgId)
    requires !SamePair(m, u, o) || MembershipIndex(ms, u, o).Some?
    ensures MembershipIndex(ms + [m], u, o) == MembershipIndex(ms, u, o)
  {
    if |ms| > 0 {
      assert (ms + [m])[1..] == ms[1..] + [m];
      if !SamePair(ms[0], u, o) {
        MembershipIndexAppend(ms[1..], m, u, o);
      }
    }
  }

  /** A membership appended for a pair that had none is found at the end. */
  lemma {:induction false} MembershipIndexAppended(ms: seq<Membership>, m: Membership)
    requires MembershipIndex(ms, m.userId, m.organizationId).None?
    ensures MembershipIndex(ms + [m], m.userId, m.organizationId) == Some(|ms|)
  {
    if |ms| > 0 {
      assert (ms + [m])[1..] == ms[1..] + [m];
      MembershipIndexAppended(ms[1..], m);
    }
  }

  /** Appending another user's membership does not move a user's earliest
      membership. */
  lemma {:induction false} FirstMembershipIndexAppend(ms: seq<Membership>, m: Membership, u: UserId)
    requires m.userId != u
    ensures FirstMembershipIndex(ms + [m], u) == FirstMembershipIndex(ms, u)
  {
    if |ms| > 0 {
      assert (ms + [m])[1..] == ms[1..] + [m];
      FirstMembershipIndexAppend(ms[1..], m, u);
    }
  }

  // ---------------------------------------------------------------------
  // Writes

  /** `user.create`: fails on a taken id or e-mail. */
  function CreateUser(db: Db, u: User): (r: Result<Db, DbError>)
    ensures r.Success? <==> u.id !in UserIds(db.users) && u.email !in Emails(db.users)
    ensures r.Success? ==> r.value == db.(users := db.users + [u])
    ensures r.Success? && Valid(db) ==> Valid(r.value)
  {
    if u.id in UserIds(db.users) || u.email in Emails(db.users) then Failure(UniqueViolation)
    else
      var db' := db.(users := db.users + [u]);
      assert UserIds(db'.users) == UserIds(db.users) + {u.id};
      Success(db')
  }

  /** `user.update` on the row whose id is `u.id`, replacing it with `u`:
      fails when there is no such row or the e-mail is another user's. */
  function PutUser(db: Db, u: User): (r: Result<Db, DbError>)
    ensures r.Success? <==>
      && u.id in UserIds(db.users)
      && forall k :: 0 <= k < |db.users| && db.users[k].id != u.id ==> db.users[k].email != u.email
    ensures r.Success? ==>
      && UserIndex(db.users, u.id).Some?
      && r.value == db.(users := db.users[UserIndex(db.users, u.id).value := u])
    ensures r.Success? && Valid(db) ==> Valid(r.value)
  {
    match UserIndex(db.users, u.id)
    case None => Failure(RecordNotFound)
    case Some(i) =>
      if exists k :: 0 <= k < |db.users| && db.users[k].id != u.id && db.users[k].email == u.email then
        Failure(UniqueViolation)
      else
        var db' := db.(users := db.users[i := u]);
        assert UserIds(db'.users) == UserIds(db.users) by {
          assert forall k :: 0 <= k < |db.users| ==> db'.users[k].id == db.users[k].id;
          SameIds(db.users, db'.users);
        }
        assert forall k :: 0 <= k < |db.users| && db.users[k].id != u.id ==> k != i;
        Success(db')
  }

  lemma SameIds(a: seq<User>, b: seq<User>)
    requires |a| == |b| && forall k :: 0 <= k < |a| ==> a[k].id == b[k].id
    ensures UserIds(a) == UserIds(b)
  {
    forall x | x in UserIds(a) ensures x in UserIds(b) {
      var u :| u in a && u.id == x;
      var k :| 0 <= k < |a| && a[k] == u;
      assert b[k] in b;
    }
    forall x | x in UserIds(b) ensures x in UserIds(a) {
      var u :| u in b && u.id == x;
      var k :| 0 <= k < |b| && b[k] == u;
      assert a[k] in a;
    }
  }

  /** The first row holding `id` is where `UserIndex` finds it. */
  lemma UserIndexIs(users: seq<User>, id: UserId, i: nat)
    requires i < |users| && users[i].id == id
    requires forall k :: 0 <= k < i ==> users[k].id != id
    ensures UserIndex(users, id) == Some(i)
  {
    assert users[i] in users;
  }

  /** Replacing a user by one with the same id keeps it findable at the
      same position. */
  lemma UserIndexAfterPut(users: seq<User>, i: nat, u: User)
    requires UserIndex(users, u.id) == Some(i)
    ensures UserIndex(users[i := u], u.id) == Some(i)
  {
    var users' := users[i := u];
    assert u.id in UserIds(users') by {
      assert users'[i] in users';
    }
    assert forall k :: 0 <= k < i ==> users'[k].id != u.id;
  }

  /** `user.update` setting the preferred organization of `id` to `o`. */
  function SetLastViewed(db: Db, id: UserId, o: OrgId): (r: Result<Db, DbError>)
    ensures r.Success? ==> id in UserIds(db.users)
    ensures Valid(db) && id in UserIds(db.users) ==> r.Success?
    ensures r.Success? ==> GetUser(r.value, id) == Some(GetUser(db, id).value.(lastViewedOrgId := Some(o)))
    ensures r.Success? ==>
      && UserIndex(db.users, id).Some?
      && r.value.users == db.users[UserIndex(db.users, id).value := GetUser(db, id).value.(lastViewedOrgId := Some(o))]
    ensures r.Success? ==> OnlyPreferenceChanged(db, r.value, id)
    ensures r.Success? ==>
      && r.value.memberships == db.memberships && r.value.orgs == db.orgs
      && r.value.customers == db.customers && r.value.invoices == db.invoices
    ensures r.Success? && Valid(db) ==> Valid(r.value)
  {
    match UserIndex(db.users, id)
    case None => Failure(RecordNotFound)
    case Some(i) =>
      var u := db.users[i].(lastViewedOrgId := Some(o));
      UserIndexAfterPut(db.users, i, u);
      PutUser(db, u)
  }

  /** Under unique e-mails, rewriting a user without changing its e-mail
      succeeds. */
  lemma PutUserKeepsEmail(db: Db, u: User)
    requires UniqueUsers(db.users)
    requires GetUser(db, u.id).Some? && GetUser(db, u.id).value.email == u.email
    ensures PutUser(db, u).Success?
  {
    var j := UserIndex(db.users, u.id).value;
    forall k | 0 <= k < |db.users| && db.users[k].id != u.id
      ensures db.users[k].email != u.email
    {
      assert k != j;
    }
  }

  /** Writing the same row twice is writing it once. */
  lemma PutUserAgain(db: Db, u: User)
    requires PutUser(db, u).Success?
    ensures PutUser(PutUser(db, u).value, u) == PutUser(db, u)
  {
    var i := UserIndex(db.users, u.id).value;
    var db1 := PutUser(db, u).value;
    UserIndexAfterPut(db.users, i, u);
    assert db1.users[i := u] == db1.users;
    forall k | 0 <= k < |db1.users| && db1.users[k].id != u.id
      ensures db1.users[k].email != u.email
    {
      assert db1.users[k] == db.users[k];
    }
  }

  /** After a successful `PutUser`, its e-mail leads to its id. */
  lemma PutUserEmail(db: Db, u: User)
    requires PutUser(db, u).Success?
    ensures GetUserByEmail(PutUser(db, u).value, u.email).Some?
    ensures GetUserByEmail(PutUser(db, u).value, u.email).value.id == u.id
  {
    var i := UserIndex(db.users, u.id).value;
    var users := PutUser(db, u).value.users;
    assert users[i] == u;
    assert u.email in Emails(users);
    var k := EmailIndex(users, u.email).value;
    if k != i {
      assert users[k] == db.users[k];
    }
  }

  /** After a successful `SetLastViewed`, the user's e-mail still leads to
      its id. */
  lemma SetLastViewedEmail(db: Db, id: UserId, o: OrgId)
    requires SetLastViewed(db, id, o).Success?
    ensures var r := SetLastViewed(db, id, o).value;
      && GetUserByEmail(r, GetUser(db, id).value.email).Some?
      && GetUserByEmail(r, GetUser(db, id).value.email).value.id == id
  {
    var i := UserIndex(db.users, id).value;
    var u := db.users[i].(lastViewedOrgId := Some(o));
    UserIndexAfterPut(db.users, i, u);
    PutUserEmail(db, u);
  }

  /** A row appended under a fresh id is found at the end. */
  lemma UserIndexOfAppended(users: seq<User>, added: User)
    requires added.id !in UserIds(users)
    ensures UserIndex(users + [added], added.id) == Some(|users|)
  {
    forall k | 0 <= k < |users| ensures (users + [added])[k].id != added.id {
      assert (users + [added])[k] == users[k] && users[k] in users;
    }
    UserIndexIs(users + [added], added.id, |users|);
  }

  lemma UserIdsAppend(users: seq<User>, added: User)
    ensures UserIds(users + [added]) == UserIds(users) + {added.id}
  {
    assert (users + [added])[|users|] == added;
    forall x | x in UserIds(users) ensures x in UserIds(users + [added]) {
      var u :| u in users && u.id == x;
      assert u in users + [added];
    }
  }

  /** Rewriting a row appended under a fresh id is appending the
      rewritten row. */
  lemma PutAppended(users: seq<User>, added: User, u: User)
    requires added.id !in UserIds(users)
    ensures UserIndex(users + [added], added.id) == Some(|users|)
    ensures (users + [added])[|users| := u] == users + [u]
  {
    UserIndexOfAppended(users, added);
  }

  /** Removing a row adds no id. */
  lemma RemoveAtIds(users: seq<User>, i: nat)
    requires i < |users|
    ensures UserIds(RemoveAt(users, i)) <= UserIds(users)
  {
    var r := RemoveAt(users, i);
    forall x | x in UserIds(r) ensures x in UserIds(users) {
      var u :| u in r && u.id == x;
      var k :| 0 <= k < |r| && r[k] == u;
      if k < i { assert users[k] == u; } else { assert users[k + 1] == u; }
    }
  }

  /** A created user is found by its id and by its e-mail. */
  lemma CreateUserFound(db: Db, u: User)
    requires CreateUser(db, u).Success?
    ensures GetUser(CreateUser(db, u).value, u.id) == Some(u)
    ensures GetUserByEmail(CreateUser(db, u).value, u.email) == Some(u)
  {
    var users := db.users + [u];
    assert users[|db.users|] == u;
  }

  /** The sequence without its element at position `i`. */
  function RemoveAt<T>(s: seq<T>, i: nat): (r: seq<T>)
    requires i < |s|
    ensures |r| == |s| - 1
    ensures forall k :: 0 <= k < i ==> r[k] == s[k]
    ensures forall k :: i <= k < |r| ==> r[k] == s[k + 1]
  {
    s[..i] + s[i + 1..]
  }

  lemma RemoveUserIds(users: seq<User>, i: nat)
    requires i < |users|
    ensures UserIds(users) - {users[i].id} <= UserIds(RemoveAt(users, i))
    ensures UniqueUsers(users) ==> UserIds(RemoveAt(users, i)) == UserIds(users) - {users[i].id}
  {
    var r := RemoveAt(users, i);
    forall x | x in UserIds(users) - {users[i].id} ensures x in UserIds(r) {
      var u :| u in users && u.id == x;
      var k :| 0 <= k < |users| && users[k] == u;
      if k < i { assert r[k] == u; } else { assert k > i; assert r[k - 1] == u; }
    }
    if UniqueUsers(users) {
      forall x | x in UserIds(r) ensures x in UserIds(users) - {users[i].id} {
        var u :| u in r && u.id == x;
        var k :| 0 <= k < |r| && r[k] == u;
        if k < i { assert users[k] == u; } else { assert users[k + 1] == u; }
      }
    }
  }

  /** `user.delete`: fails when there is no such row, or when memberships
      still reference it (the foreign key restricts the delete). */
  function DeleteUser(db: Db, id: UserId): (r: Result<Db, DbError>)
    ensures r.Success? <==>
      && id in UserIds(db.users)
      && forall k :: 0 <= k < |db.memberships| ==> db.memberships[k].userId != id
    ensures r.Success? ==>
      && r.value.memberships == db.memberships && r.value.orgs == db.orgs
      && r.value.customers == db.customers && r.value.invoices == db.invoices
      && UserIds(r.value.users) >= UserIds(db.users) - {id}
      && (Valid(db) ==> UserIds(r.value.users) == UserIds(db.users) - {id})
    ensures r.Success? ==> forall u :: u in r.value.users ==> u in db.users
    // exactly the first row with that id is removed; the others keep their order
    ensures r.Success? ==>
      UserIndex(db.users, id).Some? && r.value.users == RemoveAt(db.users, UserIndex(db.users, id).value)
    ensures r.Success? && Valid(db) ==> Valid(r.value)
  {
    match UserIndex(db.users, id)
    case None => Failure(RecordNotFound)
    case Some(i) =>
      if exists k :: 0 <= k < |db.memberships| && db.memberships[k].userId == id then
        Failure(ForeignKeyViolation)
      else
        RemoveUserIds(db.users, i);
        Success(db.(users := RemoveAt(db.users, i)))
  }

  /** `organization.create`: fails on a taken id. */
  function CreateOrg(db: Db, id: OrgId, details: OrgDetails): (r: Result<Db, DbError>)
    ensures r.Success? <==> id !in db.orgs
    ensures r.Success? ==> r.value == db.(orgs := db.orgs[id := details])
    ensures r.Success? && Valid(db) ==> Valid(r.value)
  {
    if id in db.orgs then Failure(UniqueViolation) else Success(db.(orgs := db.orgs[id := details]))
  }

  /** `organization.update`: fails when there is no such row. */
  function UpdateOrg(db: Db, id: OrgId, details: OrgDetails): (r: Result<Db, DbError>)
    ensures r.Success? <==> id in db.orgs
    ensures r.Success? ==> r.value == db.(orgs := db.orgs[id := details])
    ensures r.Success? && Valid(db) ==> Valid(r.value)
  {
    if id !in db.orgs then Failure(RecordNotFound) else Success(db.(orgs := db.orgs[id := details]))
  }

  /** `membership.create`: fails when the pair already has a membership, or
      when the user or the organization does not exist. */
  function CreateMembership(db: Db, m: Membership): (r: Result<Db, DbError>)
    ensures r.Success? <==>
      && !IsMember(db, m.userId, m.organizationId)
      && m.userId in UserIds(db.users) && m.organizationId in db.orgs
    ensures r.Success? ==> r.value == db.(memberships := db.memberships + [m])
    ensures r.Success? && Valid(db) ==> Valid(r.value)
  {
    if FindMembership(db, m.userId, m.organizationId).Some? then Failure(UniqueViolation)
    else if m.userId !in UserIds(db.users) || m.organizationId !in db.orgs then Failure(ForeignKeyViolation)
    else Success(db.(memberships := db.memberships + [m]))
  }

  /** Every membership of `from` rewritten to belong to `to`, in place. */
  function Reassign(ms: seq<Membership>, from: UserId, to: UserId): (r: seq<Membership>)
    ensures |r| == |ms|
    ensures forall k :: 0 <= k < |ms| ==>
      r[k] == if ms[k].userId == from then ms[k].(userId := to) else ms[k]
  {
    seq(|ms|, k requires 0 <= k < |ms| => if ms[k].userId == from then ms[k].(userId := to) else ms[k])
  }

  /** `membership.updateMany({where: {userId: from}, data: {userId: to}})`:
      fails when the new user does not exist, or when both users belong to
      a common organization (the pair would repeat). */
  function ReassignMemberships(db: Db, from: UserId, to: UserId): (r: Result<Db, DbError>)
    ensures (from == to || forall k :: 0 <= k < |db.memberships| ==> db.memberships[k].userId != from)
      ==> r == Success(db)
    ensures Valid(db) && to in UserIds(db.users)
      && (forall k :: 0 <= k < |db.memberships| ==> db.memberships[k].userId != to)
      ==> r.Success?
    ensures r.Success? ==> r.value == db.(memberships := Reassign(db.memberships, from, to))
    ensures r.Success? && Valid(db) ==> Valid(r.value)
  {
    var ms := db.memberships;
    if from == to || forall k :: 0 <= k < |ms| ==> ms[k].userId != from then
      assert Reassign(ms, from, to) == ms;
      Success(db)
    else if to !in UserIds(db.users) then Failure(ForeignKeyViolation)
    else if exists i, j :: 0 <= i < |ms| && 0 <= j < |ms| && ms[i].userId == from && ms[j].userId == to
                          && ms[i].organizationId == ms[j].organizationId then
      Failure(UniqueViolation)
    else
      Success(db.(memberships := Reassign(ms, from, to)))
  }

  /** `membership.delete` of the pair (`u`, `o`): fails when there is none. */
  function DeleteMembership(db: Db, u: UserId, o: OrgId): (r: Result<Db, DbError>)
    ensures r.Success? <==> IsMember(db, u, o)
    ensures r.Success? ==>
      && MembershipIndex(db.memberships, u, o).Some?
      && r.value == db.(memberships := RemoveAt(db.memberships, MembershipIndex(db.memberships, u, o).value))
    ensures r.Success? && Valid(db) ==> Valid(r.value)
  {
    match MembershipIndex(db.memberships, u, o)
    case None => Failure(RecordNotFound)
    case Some(i) => Success(db.(memberships := RemoveAt(db.memberships, i)))
  }

  /** `customer.create`: fails on a taken id or a missing organization. */
  function InsertCustomer(db: Db, c: Customer): (r: Result<Db, DbError>)
    ensures r.Success? <==> c.id !in CustomerIds(db.customers) && c.organizationId in db.orgs
    ensures r.Success? ==> r.value == db.(customers := db.customers + [c])
    ensures r.Success? && Valid(db) ==> Valid(r.value)
  {
    if c.id in CustomerIds(db.customers) then Failure(UniqueViolation)
    else if c.organizationId !in db.orgs then Failure(ForeignKeyViolation)
    else
      var db' := db.(customers := db.customers + [c]);
      assert CustomerIds(db'.customers) == CustomerIds(db.customers) + {c.id};
      Success(db')
  }

  /** `invoice.create`: fails when the organization or the customer does
      not exist. */
  function InsertInvoice(db: Db, inv: Invoice): (r: Result<Db, DbError>)
    ensures r.Success? <==> inv.organizationId in db.orgs && inv.customerId in CustomerIds(db.customers)
    ensures r.Success? ==> r.value == db.(invoices := db.invoices + [inv])
    ensures r.Success? && Valid(db) ==> Valid(r.value)
  {
    if inv.organizationId !in db.orgs || inv.customerId !in CustomerIds(db.customers) then
      Failure(ForeignKeyViolation)
    else Success(db.(invoices := db.invoices + [inv]))
  }
}
