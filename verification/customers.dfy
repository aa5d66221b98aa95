/** `createCustomer` of app/dashboard/customers/actions.ts: the customer
    schema and the insertion of a customer into the organization the
    signed-in user works in, whatever the form says. */
module Customers {
  import opened Outcomes
  import opened Text
  import opened Store
  import opened UserContext

  /** The submitted form: `formData.get` of each field, absent when null. */
  datatype CustomerForm = CustomerForm(
    companyName: Option<string>,
    firstName: Option<string>,
    lastName: Option<string>,
    email: Option<string>,
    phone: Option<string>,
    address: Option<string>,
    city: Option<string>,
    zipCode: Option<string>,
    country: Option<string>,
    vatNumber: Option<string>,
    note: Option<string>)

  /** The fields the schema accepts: a company name, and an e-mail that is
      empty or well formed. */
  predicate ValidCustomer(f: CustomerFields) {
    f.companyName != "" && (f.email == "" || ValidEmail(f.email))
  }

  /** The form a client sends for a customer. */
  function CustomerToForm(f: CustomerFields): CustomerForm {
    CustomerForm(Some(f.companyName), Some(f.firstName), Some(f.lastName), Some(f.email), Some(f.phone),
                 Some(f.address), Some(f.city), Some(f.zipCode), Some(f.country), Some(f.vatNumber), Some(f.note))
  }

  /** The fields of the form, as `fieldErrors` names them. */
  datatype Field =
    | CompanyNameField | FirstNameField | LastNameField | EmailField | PhoneField | AddressField
    | CityField | ZipCodeField | CountryField | VatNumberField | NoteField

  /** The null fields among the contact fields. */
  function ContactNulls(form: CustomerForm): (r: set<Field>)
    ensures r == {} <==> form.firstName.Some? && form.lastName.Some? && form.phone.Some? && form.note.Some?
    ensures r <= {FirstNameField, LastNameField, PhoneField, NoteField}
  {
    (if form.firstName.None? then {FirstNameField} else {})
    + (if form.lastName.None? then {LastNameField} else {})
    + (if form.phone.None? then {PhoneField} else {})
    + (if form.note.None? then {NoteField} else {})
  }

  /** The null fields among the address fields. */
  function AddressNulls(form: CustomerForm): (r: set<Field>)
    ensures r == {} <==>
      form.address.Some? && form.city.Some? && form.zipCode.Some? && form.country.Some? && form.vatNumber.Some?
    ensures r <= {AddressField, CityField, ZipCodeField, CountryField, VatNumberField}
  {
    (if form.address.None? then {AddressField} else {})
    + (if form.city.None? then {CityField} else {})
    + (if form.zipCode.None? then {ZipCodeField} else {})
    + (if form.country.None? then {CountryField} else {})
    + (if form.vatNumber.None? then {VatNumberField} else {})
  }

  /** The optional text fields that are null: `optional()` admits a
      missing value but not `null`. */
  function NullFields(form: CustomerForm): (r: set<Field>)
    ensures r == {} <==>
      && form.firstName.Some? && form.lastName.Some? && form.phone.Some? && form.address.Some?
      && form.city.Some? && form.zipCode.Some? && form.country.Some? && form.vatNumber.Some? && form.note.Some?
    ensures CompanyNameField !in r && EmailField !in r
  {
    ContactNulls(form) + AddressNulls(form)
  }

  /** `CustomerSchema.safeParse`; a rejection lists the offending fields
      (`fieldErrors`'s keys). */
  function ParseCustomer(form: CustomerForm): (r: Result<CustomerFields, set<Field>>)
    ensures r.Success? ==> ValidCustomer(r.value) && CustomerToForm(r.value) == form
    ensures r.Failure? ==> r.error != {}
    ensures r.Failure? ==>
      && (CompanyNameField in r.error <==> !Truthy(form.companyName))
      && (EmailField in r.error <==> form.email.None? || (form.email.value != "" && !ValidEmail(form.email.value)))
      && r.error - {CompanyNameField, EmailField} == NullFields(form)
  {
    var errors :=
      (if !Truthy(form.companyName) then {CompanyNameField} else {})
      + (if form.email.None? || (form.email.value != "" && !ValidEmail(form.email.value)) then {EmailField} else {})
      + NullFields(form);
    if errors != {} then Failure(errors)
    else
      Success(CustomerFields(form.companyName.value, form.firstName.value, form.lastName.value, form.email.value,
                             form.phone.value, form.address.value, form.city.value, form.zipCode.value,
                             form.country.value, form.vatNumber.value, form.note.value))
  }

  /** A customer survives being sent as a form and read back exactly when
      the schema accepts it. */
  lemma CustomerRoundTrip(f: CustomerFields)
    ensures ParseCustomer(CustomerToForm(f)).Success? <==> ValidCustomer(f)
    ensures ValidCustomer(f) ==> ParseCustomer(CustomerToForm(f)) == Success(f)
  {
    if !ValidCustomer(f) {
      var errors := ParseCustomer(CustomerToForm(f));
      assert f.companyName == "" ==> CompanyNameField in errors.error;
    }
  }

  /** What `createCustomer` returns. */
  datatype CustomerReply =
    | CustomerCreated
    | CustomerError(message: string)
    | CustomerFieldErrors(fields: set<Field>)

  /** `createCustomer`, with the id the database generates, `newId`. The
      preference update `getUserContext` may make stays. */
  function CreateCustomer(db: Db, auth: Option<UserId>, form: CustomerForm, newId: CustomerId): (s: Step<CustomerReply>)
    ensures auth.None? || GetUser(db, auth.value).None? ==> s == Step(Failure(Redirected("/login")), db)
    ensures auth.Some? && GetUser(db, auth.value).Some? && GetUserContext(db, auth).result.value.organization.None? ==>
      s == Step(Success(CustomerError("Organisation introuvable")), GetUserContext(db, auth).db)
    ensures s.result.Success? && s.result.value.CustomerFieldErrors? ==>
      ParseCustomer(form).Failure? && s.result.value.fields == ParseCustomer(form).error
    // any reply but a creation writes no customer: at most the preference
    // that resolving the organization stores
    ensures s.result != Success(CustomerCreated) ==> s.db == GetUserContext(db, auth).db
    ensures s.result != Success(CustomerCreated) ==> s.db.customers == db.customers
    // the new customer belongs to the caller's organization, and is the
    // only customer written
    ensures s.result == Success(CustomerCreated) ==>
      && auth.Some? && ParseCustomer(form).Success?
      && var ctx := GetUserContext(db, auth);
         && ctx.result.Success? && ctx.result.value.organization.Some?
         && var org := ctx.result.value.organization.value.id;
            && IsMember(db, auth.value, org)
            && s.db == ctx.db.(customers := ctx.db.customers + [Customer(newId, org, ParseCustomer(form).value)])
    ensures Valid(db) && auth.Some? && GetUser(db, auth.value).Some? && ParseCustomer(form).Success?
      && GetUserContext(db, auth).result.value.organization.Some?
      && newId !in CustomerIds(db.customers)
      ==> s.result == Success(CustomerCreated)
    ensures s.db.memberships == db.memberships && s.db.orgs == db.orgs && s.db.invoices == db.invoices
    ensures Valid(db) ==> Valid(s.db)
  {
    var ctx := GetUserContext(db, auth);
    match ctx.result
    case Failure(e) => Step(Failure(e), ctx.db)
    case Success(c) =>
      match c.organization
      case None => Step(Success(CustomerError("Organisation introuvable")), ctx.db)
      case Some(org) =>
        match ParseCustomer(form)
        case Failure(fields) => Step(Success(CustomerFieldErrors(fields)), ctx.db)
        case Success(fields) =>
          match InsertCustomer(ctx.db, Customer(newId, org.id, fields))
          case Failure(e) => Step(Failure(DbFailed(e)), ctx.db)
          case Success(db') => Step(Success(CustomerCreated), db')
  }
}
