/** `updateUserProfile` of app/actions/user.ts: the signed-in user sets
    their first and last name, both required after trimming and each at
    most 100 UTF-16 code units long. */
module UserProfile {
  import opened Outcomes
  import opened Text
  import opened Store

  /** The longest name accepted, in UTF-16 code units. */
  const MaxNameLength := 100

  /** The `{ success, message }` object the settings form receives. */
  datatype ProfileReply = ProfileReply(success: bool, message: string)

  /** A name the action accepts, once trimmed. */
  predicate AcceptableName(s: string) {
    s != "" && Utf16Length(s) <= MaxNameLength
  }

  /** The check of the two trimmed names: the emptiness message comes
      first, then the length message. */
  function CheckNames(first: string, last: string): (r: Option<string>)
    ensures r.None? <==> AcceptableName(first) && AcceptableName(last)
    ensures (first == "" || last == "") ==> r == Some("Le prénom et le nom sont requis")
    ensures first != "" && last != "" && !(AcceptableName(first) && AcceptableName(last)) ==>
      r == Some("Le prénom et le nom ne peuvent pas dépasser 100 caractères")
  {
    if first == "" || last == "" then Some("Le prénom et le nom sont requis")
    else if Utf16Length(first) > MaxNameLength || Utf16Length(last) > MaxNameLength then
      Some("Le prénom et le nom ne peuvent pas dépasser 100 caractères")
    else None
  }

  /** `updateUserProfile`; `firstName` and `lastName` are the form fields,
      absent when null. */
  function UpdateUserProfile(db: Db, auth: Option<UserId>, firstName: Option<string>, lastName: Option<string>): (s: Step<ProfileReply>)
    ensures auth.None? ==> s == Step(Failure(Thrown("Non autorisé")), db)
    // an invalid name is reported and nothing is written
    ensures auth.Some? && CheckNames(Trim(firstName.GetOr("")), Trim(lastName.GetOr(""))).Some? ==>
      s == Step(Success(ProfileReply(false, CheckNames(Trim(firstName.GetOr("")), Trim(lastName.GetOr(""))).value)), db)
    // a success stores exactly the trimmed names on the caller's row
    ensures s.result.Success? && s.result.value.success ==>
      && auth.Some? && GetUser(db, auth.value).Some?
      && s.result.value.message == "Profil mis à jour"
      && var first := Trim(firstName.GetOr(""));
         var last := Trim(lastName.GetOr(""));
         && AcceptableName(first) && AcceptableName(last)
         && GetUser(s.db, auth.value) == Some(GetUser(db, auth.value).value.(firstName := Some(first), lastName := Some(last)))
         // and every other row stays as it was
         && UserIndex(db.users, auth.value).Some?
         && s.db.users == db.users[UserIndex(db.users, auth.value).value := GetUser(s.db, auth.value).value]
    ensures Valid(db) && auth.Some? && GetUser(db, auth.value).Some?
      && AcceptableName(Trim(firstName.GetOr(""))) && AcceptableName(Trim(lastName.GetOr("")))
      ==> s.result == Success(ProfileReply(true, "Profil mis à jour"))
    ensures !(s.result.Success? && s.result.value.success) ==> s.db == db
    ensures s.db.memberships == db.memberships && s.db.orgs == db.orgs
      && s.db.customers == db.customers && s.db.invoices == db.invoices
    ensures Valid(db) ==> Valid(s.db)
  {
    match auth
    case None => Step(Failure(Thrown("Non autorisé")), db)
    case Some(uid) =>
      var first := Trim(firstName.GetOr(""));
      var last := Trim(lastName.GetOr(""));
      match CheckNames(first, last)
      case Some(message) => Step(Success(ProfileReply(false, message)), db)
      case None =>
        match GetUser(db, uid)
        case None => Step(Failure(DbFailed(RecordNotFound)), db)
        case Some(user) =>
          match SaveNames(db, user, first, last)
          case Failure(e) => Step(Failure(DbFailed(e)), db)
          case Success(db') => Step(Success(ProfileReply(true, "Profil mis à jour")), db')
  }

  /** The `prisma.user.update` writing the two names onto `user`'s row;
      the e-mail is untouched, so on a valid database it cannot clash. */
  function SaveNames(db: Db, user: User, first: string, last: string): (r: Result<Db, DbError>)
    requires GetUser(db, user.id) == Some(user)
    ensures r.Success? ==>
      && GetUser(r.value, user.id) == Some(user.(firstName := Some(first), lastName := Some(last)))
      && r.value.memberships == db.memberships && r.value.orgs == db.orgs
      && r.value.customers == db.customers && r.value.invoices == db.invoices
      && (Valid(db) ==> Valid(r.value))
    // the caller's row is rewritten in place; every other row stays
    ensures r.Success? ==>
      && UserIndex(db.users, user.id).Some?
      && r.value.users == db.users[UserIndex(db.users, user.id).value := user.(firstName := Some(first), lastName := Some(last))]
    ensures Valid(db) ==> r.Success?
  {
    var u := user.(firstName := Some(first), lastName := Some(last));
    var i := UserIndex(db.users, user.id).value;
    UserIndexAfterPut(db.users, i, u);
    assert Valid(db) ==> PutUser(db, u).Success? by {
      if Valid(db) { PutUserKeepsEmail(db, u); }
    }
    PutUser(db, u)
  }

  /** The stored names carry no surrounding white space: submitting them
      again changes nothing. */
  lemma ResubmitUnchanged(db: Db, auth: Option<UserId>, firstName: Option<string>, lastName: Option<string>)
    requires UpdateUserProfile(db, auth, firstName, lastName).result == Success(ProfileReply(true, "Profil mis à jour"))
    ensures var db1 := UpdateUserProfile(db, auth, firstName, lastName).db;
      var u := GetUser(db1, auth.value).value;
      UpdateUserProfile(db1, auth, u.firstName, u.lastName) == Step(Success(ProfileReply(true, "Profil mis à jour")), db1)
  {
    var uid := auth.value;
    var first := Trim(firstName.GetOr(""));
    var last := Trim(lastName.GetOr(""));
    var u := GetUser(db, uid).value.(firstName := Some(first), lastName := Some(last));
    var db1 := UpdateUserProfile(db, auth, firstName, lastName).db;
    assert SaveNames(db, GetUser(db, uid).value, first, last) == Success(db1);
    assert PutUser(db, u) == Success(db1);
    PutUserAgain(db, u);
    TrimIdempotent(firstName.GetOr(""));
    TrimIdempotent(lastName.GetOr(""));
    assert GetUser(db1, uid) == Some(u);
  }
}
