# simple-invoice, modelled in Dafny

A model of the server-side rules of simple-invoice, a multi-tenant invoicing
web application (Next.js server actions over a relational database and an
external authentication provider), together with proofs about it.

The database is an immutable value `Store.Db`. It holds:

- users, in creation order;
- organizations, a map from id to details;
- memberships, in creation order;
- customers;
- invoices.

`Store.Valid` states the schema's constraints: unique user ids and e-mails,
one membership per (user, organization) pair, and foreign keys. Each ORM
write is a function that returns the new database or the `DbError` the ORM
would raise. A server action is a function from the database (and its
inputs) to a `Step`: the action's result or `ActionError` (redirect, thrown
error, schema rejection, database failure), paired with the database it
leaves behind. A transaction that fails leaves the original database.

The session's user, the `current_org_id` cookie and the ids the database or
the provider generates are inputs.

Modules:

- `Outcomes`: `Option` and `Result`.
- `Text`: the JavaScript string operations used: `trim`, truthiness,
  `split`/`join`, UTF-16 length, `filter(Boolean)`.
- `Numerals`: decimal text, `padStart`, and `parseInt`.
- `Store`: the entities, the schema's constraints, lookups and writes.
- `InvoiceSchema`: `lib/schemas/invoice.ts`.
- `Invoices`: `app/actions/invoices.ts`: totals in cents, invoice numbers,
  `createInvoice`, `getInvoices`, and its own `switchOrganization`.
- `OrgPreference`: `requireUserOrganization` (`lib/context/organization.ts`).
- `UserContext`: `getUserContext` (`lib/context/context.ts`).
- `AuthHelpers`: `getUserWithOrg` (`lib/auth-helpers.ts`).
- `OrganizationActions`: `app/actions/organization.ts`.
- `Team`: `app/actions/team.ts`.
- `AuthSync`: `syncUser`, `login` and `signup` (`app/auth/actions.ts`).
- `UserProfile`: `updateUserProfile` (`app/actions/user.ts`).
- `Customers`: `CustomerSchema` and `createCustomer`
  (`app/dashboard/customers/actions.ts`).
- `Pagination`: `components/pagination.tsx`.
- `CustomerViews`: the customer detail sheet and the customer's invoice and
  quote lists.

The four ways the code resolves the active organization share one
invariant, each proved as an `ensures`: the result is null or an
organization the user belongs to. The variants are
`RequireUserOrganization`, `GetUserContext`, `GetCurrentOrgId` and
`GetUserWithOrg`.

Where the code and its comments disagree, the model follows the code:

- `addTeamMember` looks up an administrator but never uses the result, so
  anyone with an active organization can invite.
- `getCurrentOrgId`, `getUserWithOrg` and the fallback of `getUserContext`
  take the first membership in creation order. They give no ordering, and
  creation order is the database's natural order.
- Customer optional fields accept a missing value but not `null`, and
  `formData.get` gives `null` for an absent field. An absent optional field
  therefore makes `createCustomer` report that field (`Customers.NullFields`).
- `createInvoice` does not check that the customer belongs to the active
  organization. Only the foreign key is enforced.
- The invoice number's segment is the text between the first and the
  second `-`.

## Model

| member | source | states |
|---|---|---|
| Text.Trim | app/actions/user.ts:17-18 | The trimmed text is no longer than the input, has no surrounding white space, and is empty exactly when the input is all white space |
| Text.TrimIsSlice | app/actions/user.ts:17-18 | Trimming removes only white space from the two ends: the result is a contiguous slice with white space on both sides |
| Text.TrimIdempotent | app/actions/user.ts:17-18 | Trimming twice is trimming once |
| Text.Utf16Length | app/actions/user.ts:27 | `.length` counts UTF-16 code units: between one and two per character, exactly one per character of the basic plane |
| Text.SplitJoin | app/actions/invoices.ts:56 | Splitting the join of parts free of the separator gives the parts back |
| Text.JoinSplit | app/actions/invoices.ts:56 | Joining the pieces of a split gives the text back |
| Text.Compact | app/dashboard/customers/customer-details.tsx:42-47 | `filter(Boolean)` keeps only non-empty values taken from the input, and is empty exactly when no value is truthy |
| Text.CompactOne | app/dashboard/customers/customer-details.tsx:42-47 | One value is kept exactly when it is truthy |
| Text.CompactAppend | app/dashboard/customers/customer-details.tsx:42-47 | Filtering a concatenation is filtering each part: with `CompactOne`, the result is every truthy value, in order |
| Text.CompactPair | app/dashboard/customers/customer-details.tsx:44 | Filtering two values keeps each truthy one, in order |
| Numerals.Decimal | app/actions/invoices.ts:55-57 | `String(n)` of a natural number is its digits without a leading zero, and denotes `n` |
| Numerals.PadStart | app/actions/invoices.ts:55-57 | `padStart` reaches the width (never shortens), keeps the text as a suffix, and fills the front with the pad character |
| Numerals.ParseIntOfDecimal | components/pagination.tsx:42 | `parseInt` reads a decimal numeral back as its number |
| Numerals.ParseIntOfPadded | app/actions/invoices.ts:56 | `parseInt` reads a zero-padded numeral back as its number |
| Numerals.IntToString | app/actions/invoices.ts:55-57 | `String(i)` of any integer is non-empty and `parseInt` reads it back as `i` |
| Numerals.ParseIntOfNegative | app/actions/invoices.ts:55-57 | `parseInt` reads a minus sign followed by a numeral as the negated number |
| Store.CreateUser | app/auth/actions.ts:64-71 | Creating a user succeeds exactly when its id and e-mail are free, appends it, and keeps the constraints |
| Store.PutUser | app/actions/user.ts:34-37 | Updating a user succeeds exactly when the row exists and the e-mail clashes with no other row; it replaces that row only |
| Store.PutUserAgain | app/actions/user.ts:34-37 | Writing the same row a second time changes nothing |
| Store.SetLastViewed | app/actions/organization.ts:150-153 | Storing the preference rewrites only that user's row, in place, with only `lastViewedOrgId` changed; other rows and tables stay; it cannot fail for an existing user on a valid database |
| Store.DeleteUser | app/auth/actions.ts:44-46 | Deleting a user succeeds exactly when the row exists and no membership references it; exactly that row is removed, the others keep their order |
| Store.FindMembership | lib/context/organization.ts:20-27 | The pair lookup finds a membership of that user in that organization, and finds none exactly when there is none |
| Store.MembershipUnique | lib/context/organization.ts:20-27 | On a valid database the pair lookup returns the only membership of that pair |
| Store.FirstMembershipIndex | lib/context/organization.ts:34-38 | The position of the user's earliest membership, absent exactly when the user has none |
| Store.CreateOrg | app/actions/organization.ts:67-69 | Creating an organization succeeds exactly when its id is free |
| Store.UpdateOrg | app/actions/organization.ts:124-127 | Updating an organization succeeds exactly when it exists, and changes only its details |
| Store.CreateMembership | app/actions/team.ts:81-87 | Creating a membership succeeds exactly when the pair is new and both ends exist; it appends the row and keeps the constraints |
| Store.ReassignMemberships | app/auth/actions.ts:38-41 | Moving memberships rewrites exactly the rows of the old user, in place; nothing to move is a no-op; on a valid database it succeeds when the new user exists and has none |
| Store.DeleteMembership | app/actions/team.ts:109-116 | Deleting a pair succeeds exactly when it is a membership, and removes that one row |
| Store.InsertCustomer | app/dashboard/customers/actions.ts:48-53 | Creating a customer succeeds exactly when its id is free and its organization exists |
| Store.InsertInvoice | app/actions/invoices.ts:60-80 | Creating an invoice succeeds exactly when its organization and customer exist |
| InvoiceSchema.ParseStatus | lib/schemas/invoice.ts:3-9 | The status enumeration accepts exactly the five names |
| InvoiceSchema.StatusRoundTrip | lib/schemas/invoice.ts:3-9 | Every status name is read back as that status |
| InvoiceSchema.ParseItem | lib/schemas/invoice.ts:12-20 | An accepted item is valid (non-empty description, quantity at least 1, non-negative price, discount and tax rate), keeps the given fields and fills the defaults 1, "unité", 0 and 20 |
| InvoiceSchema.ItemRoundTrip | lib/schemas/invoice.ts:12-20 | A filled-in item is accepted exactly when valid, and then unchanged |
| InvoiceSchema.ParseItems | lib/schemas/invoice.ts:28 | The item list is accepted exactly when every item is, position by position; otherwise every issue names a rejected item |
| InvoiceSchema.ParseInvoice | lib/schemas/invoice.ts:23-30 | An invoice is accepted exactly when it has a non-empty customer id, both dates, a known status or none, and at least one item all of which are accepted; it then keeps the given fields and defaults the status to DRAFT |
| InvoiceSchema.InvoiceRoundTrip | lib/schemas/invoice.ts:23-30 | A filled-in invoice is accepted exactly when valid, and then read back unchanged |
| Invoices.Round | app/actions/invoices.ts:26 | `Math.round` gives the integer within half a unit, halves rounding up |
| Invoices.Stored | app/actions/invoices.ts:33-40 | A stored line keeps description, quantity and tax rate, with the price in rounded cents |
| Invoices.ComputeTotals | app/actions/invoices.ts:22-41 | The one-pass loop yields the sum of the line totals, the sum of the per-line rounded taxes, and the stored lines |
| Invoices.TotalsNonNegative | app/actions/invoices.ts:43 | Items the schema accepts never give a negative subtotal or tax |
| Invoices.TaxRoundingBound | app/actions/invoices.ts:28-31 | The summed per-line rounded tax is within half a cent per line of the exact tax |
| Invoices.PerLineRoundingDiffers | app/actions/invoices.ts:28-31 | The tax is a sum of rounded line taxes, not a rounded sum: two lines can give 2 cents where the rounded exact tax is 1 |
| Invoices.DiscountIgnored | app/actions/invoices.ts:33-40 | Discount, details and unit change neither the totals nor the stored lines |
| Invoices.NumberSegment | app/actions/invoices.ts:56 | The segment read from a number is never empty and holds no `-` |
| Invoices.NextInvoiceNumber | app/actions/invoices.ts:54-58 | The next number always starts with "INV-"; an unreadable segment gives "INV-NaN" |
| Invoices.FirstNumber | app/actions/invoices.ts:54-58 | An organization's first number is that of 1, "INV-001" |
| Invoices.NumberRoundTrip | app/actions/invoices.ts:55-57 | A written number reads back as its value |
| Invoices.NextAfterNumber | app/actions/invoices.ts:54-58 | The number after that of n is that of n + 1 |
| Invoices.NextAfterSeven | app/actions/invoices.ts:55-57 | "INV-007" is followed by "INV-008" |
| Invoices.NextAfterNineNineNine | app/actions/invoices.ts:55-57 | "INV-999" is followed by "INV-1000": three digits is a minimum width |
| Invoices.NextAfterNonNumeric | app/actions/invoices.ts:56 | A segment `parseInt` cannot read yields "INV-NaN" |
| Invoices.LastInvoiceNumber | app/actions/invoices.ts:47-51 | The latest number is that of the organization's last-created invoice, absent exactly when it has none |
| Invoices.ActiveOrg | app/actions/invoices.ts:14 | An organization resolved for the caller is one the caller belongs to |
| Invoices.NewInvoice | app/actions/invoices.ts:60-80 | The written invoice carries the forced organization, the next number, subtotal plus tax as total, and the stored lines |
| Invoices.CreateInvoice | app/actions/invoices.ts:13-84 | No session redirects; no organization throws; rejected data writes nothing; success appends exactly one invoice in a member organization, with the validated items' totals; besides that invoice, at most the caller's preference changes |
| Invoices.InvoicesOfOrg | app/actions/invoices.ts:93-96 | The list holds exactly the organization's invoices |
| Invoices.ReverseReverse | app/actions/invoices.ts:106-108 | Reversing twice gives the list back |
| Invoices.GetInvoices | app/actions/invoices.ts:86-112 | Only invoices of an organization the caller belongs to are listed: all of the active one's, newest first, or none without one |
| Invoices.SwitchOrganization | app/actions/invoices.ts:114-141 | A non-member is refused with nothing written; a member's preference becomes the organization; no other row or field changes |
| OrgPreference.RequireUserOrganization | lib/context/organization.ts:5-53 | No session redirects to the login page with no write; a preference the user still belongs to is returned with no write; else the earliest membership's organization, stored as the preference; null without memberships; never an organization the user does not belong to; at most the caller's preference changes |
| UserContext.FindByOrg | lib/context/context.ts:52-54 | `find` returns a membership of that organization, and none exactly when none matches |
| UserContext.ContextFor | lib/context/context.ts:52-62 | A returned organization is the chosen one, with its stored details and its membership among the user's |
| UserContext.GetUserContext | lib/context/context.ts:7-63 | No session or user redirects to /login; a valid preference is returned (on a valid database) with no write; else the first membership is chosen and stored; without memberships both are null; a returned organization is the user's, with its membership; at most the caller's preference changes |
| UserContext.AdoptFirst | lib/context/context.ts:36-45 | The fallback chooses the first membership's organization and, on a valid database, stores it as the preference; nothing but that preference changes |
| AuthHelpers.GetUserWithOrg | lib/auth-helpers.ts:4-34 | Null without a session, a user row or a membership; otherwise the user unchanged, flattened with its first membership's organization, which it belongs to |
| OrganizationActions.GetCurrentOrgId | app/actions/organization.ts:9-54 | Null without a session; the cookie if the user belongs to it; else the preference if the user belongs to it; else the first membership's organization; never one the user does not belong to |
| OrganizationActions.SwitchOrganization | app/actions/organization.ts:134-158 | A non-member is refused with nothing written; a member's preference and cookie become the organization; no other row or field changes |
| OrganizationActions.CreateOrgWithAdmin | app/actions/organization.ts:65-80 | The organization and the creator's ADMIN membership are written together or not at all |
| OrganizationActions.CreateOrganization | app/actions/organization.ts:56-83 | A new organization, administered by the caller and now preferred, with no other user row or field changed; a failed transaction writes nothing; the later switch cannot fail on a valid database, and were it to fail the committed rows would stay |
| OrganizationActions.UpdateOrganization | app/actions/organization.ts:86-131 | Without an ADMIN membership it throws "Droit insuffisant" with nothing written; otherwise exactly the organization's thirteen fields become the submitted ones |
| Team.ParseRole | app/actions/team.ts:11 | The role enumeration accepts exactly ADMIN and MEMBER |
| Team.ParseInvite | app/actions/team.ts:35-43 | An accepted invitation has a valid e-mail and the given role, MEMBER when none is given; a rejection names exactly the bad fields |
| Team.InviteRoundTrip | app/actions/team.ts:9-12 | An invitation is read back unchanged exactly when its e-mail is valid |
| Team.Invitee | app/actions/team.ts:50-64 | The invitee is the user holding the e-mail, or else a new placeholder with that e-mail |
| Team.InviteTransaction | app/actions/team.ts:47-99 | Exactly one membership for the invitee is added, plus the placeholder if the e-mail was unknown; an existing member gives "Déjà membre" with nothing written |
| Team.AddTeamMember | app/actions/team.ts:14-100 | No active organization throws; an invalid form or failed transaction writes nothing; success adds one membership in the caller's organization; no administrator check |
| Team.RemoveTeamMember | app/actions/team.ts:102-119 | Only the (user, active organization) membership is removed, and the call succeeds exactly when it exists |
| Team.CurrentOrgAfterAppend | app/actions/team.ts:15 | Another user's new membership does not change the caller's active organization |
| Team.AddThenRemove | app/actions/team.ts:81-116 | Inviting a known user and then removing that user restores the database |
| AuthSync.MigrationEmail | app/auth/actions.ts:30 | The temporary e-mail differs from the real one |
| AuthSync.MigratedUser | app/auth/actions.ts:27-35 | The new row takes the provider's id, the temporary e-mail and the old preference; a name is the submitted one when non-empty, else the old one |
| AuthSync.DefaultOrgName | app/auth/actions.ts:76 | The company name when non-empty, else "<first name>'s Company" |
| AuthSync.MoveToNewId | app/auth/actions.ts:25-46 | The memberships of the placeholder move to the new id in place; the users table loses the placeholder's row and gains the migrated row at the end, every other row kept in order; no other table changes |
| AuthSync.MoveSucceeds | app/auth/actions.ts:25-46 | With a free id and temporary e-mail the first three writes succeed; the new id replaces the placeholder's and nobody holds the e-mail, so the last write cannot clash |
| AuthSync.RestoreEmail | app/auth/actions.ts:48-52 | The new id's row is rewritten in place with only its e-mail changed, to the real one, which it then holds; every other row stays |
| AuthSync.Migrate | app/auth/actions.ts:21-55 | Case A: the placeholder's memberships move to the new id; the users table is the old one without the placeholder's row plus the new id's row, with the real e-mail, the submitted names when non-empty (else the old ones) and the old preference |
| AuthSync.MigrateSucceeds | app/auth/actions.ts:21-55 | On a valid database case A succeeds when the new id and temporary e-mail are free; the new id replaces the old one |
| AuthSync.Onboard | app/auth/actions.ts:62-92 | Case C: the users table gains exactly the new user's row, which prefers a new default-named organization it administers through one ADMIN membership |
| AuthSync.SyncUser | app/auth/actions.ts:10-94 | Case B changes nothing; after any success the e-mail belongs to the provider's id; case A moves memberships and replaces the placeholder's row by the new id's row (old names where none is given, the old preference), keeping every other row; case C appends the user with the given names, an organization with the default name that the user administers and prefers; all or nothing |
| AuthSync.SyncSucceeds | app/auth/actions.ts:15-93 | On a valid database a sync succeeds whenever the ids it creates, and in case A the temporary e-mail, are still free |
| AuthSync.SyncIdempotent | app/auth/actions.ts:57-60 | Syncing a second time finds case B and changes nothing |
| AuthSync.Login | app/auth/actions.ts:98-125 | A provider error is shown; otherwise the user goes to the dashboard whether or not the sync succeeds |
| AuthSync.Signup | app/auth/actions.ts:127-162 | A provider error is shown; a failed sync is reported with nothing written; otherwise the user goes to the dashboard |
| AuthSync.SignupOwnOrganization | app/auth/actions.ts:145-161 | A new address that signs up lands in its own organization, which it administers |
| AuthSync.NewcomerLands | lib/context/organization.ts:20-31 | A user whose one membership is also the stored preference works in that organization |
| UserProfile.CheckNames | app/actions/user.ts:20-32 | Names pass exactly when both are non-empty and at most 100 code units; the emptiness message takes precedence |
| UserProfile.SaveNames | app/actions/user.ts:34-37 | The update rewrites the caller's row in place with exactly the two names, keeps every other row, and on a valid database cannot fail |
| UserProfile.UpdateUserProfile | app/actions/user.ts:7-41 | No session throws before any check; an invalid name is reported with nothing written; success stores exactly the trimmed names on the caller's row and changes no other row |
| UserProfile.ResubmitUnchanged | app/actions/user.ts:14-40 | Submitting the stored names again succeeds and changes nothing |
| Customers.NullFields | app/dashboard/customers/actions.ts:11-20 | The null optional fields, empty exactly when all are present |
| Customers.ParseCustomer | app/dashboard/customers/actions.ts:9-21 | An accepted customer has a company name and an empty or valid e-mail, and is the form's values; a rejection names the company name exactly when it is empty, the e-mail exactly when it is bad, and every null optional field |
| Customers.CustomerRoundTrip | app/dashboard/customers/actions.ts:9-21 | A customer is read back unchanged from its form exactly when the schema accepts it |
| Customers.CreateCustomer | app/dashboard/customers/actions.ts:23-57 | No organization gives "Organisation introuvable"; any reply but a creation (field errors, database failure) writes no customer; success appends one customer, of the caller's organization |
| Pagination.HandlePageChange | components/pagination.tsx:33-38 | A page is reported exactly when it lies in 1..totalPages |
| Pagination.HandleJump | components/pagination.tsx:40-47 | A typed page is reported and the box emptied exactly when `parseInt` reads a page in 1..totalPages; otherwise the box is kept |
| Pagination.JumpToTyped | components/pagination.tsx:40-47 | Typing a page in range jumps to it |
| Pagination.Items | components/pagination.tsx:52-203 | The navigator starts with the previous arrow, ends with the next arrow, and shows the current page between |
| Pagination.NumbersShown | components/pagination.tsx:67-189 | The numbered buttons are exactly the first, the last, and the current page with its neighbours, strictly increasing |
| Pagination.GapsMarkSkips | components/pagination.tsx:79-176 | An ellipsis stands exactly where the shown pages skip; adjacent buttons are consecutive pages |
| Pagination.ClicksAgree | components/pagination.tsx:53-203 | Every page button reports its own page; each arrow is disabled exactly when its click would report nothing |
| CustomerViews.DisplayName | app/dashboard/customers/customer-details.tsx:38-39 | The company name when truthy, else first and last name, printing `null` for a missing one |
| CustomerViews.Initials | app/dashboard/customers/customer-details.tsx:40 | The first two characters of the display name, upper-cased |
| CustomerViews.PersonInitials | app/dashboard/customers/customer-details.tsx:38-40 | Without a company, a customer is named "first last" and initialled by the first name's first two letters |
| CustomerViews.AddressLines | app/dashboard/customers/customer-details.tsx:42-47 | At most two lines, none empty: the street when truthy, then postcode and city joined by a space, or whichever of the two is truthy alone; empty exactly when all three are |
| CustomerViews.AddressReadBack | app/dashboard/customers/customer-details.tsx:42-47 | The address block splits back on line breaks into its lines |
| CustomerViews.DetailLines | app/dashboard/customers/customer-details.tsx:84-114 | Email, phone and address rows fall back to `-`; the VAT row appears exactly when the VAT number is truthy |
| CustomerViews.ClientName | app/dashboard/customers/components/invoices-list.tsx:30-35 | The company name when truthy, else the trimmed "first last" when not blank, else "Client inconnu"; never empty |
| CustomerViews.PersonClientName | app/dashboard/customers/components/quotes-list.tsx:28-33 | Without a company, a customer is listed as "first last" |
| CustomerViews.DocLink | app/dashboard/customers/components/invoices-list.tsx:37-46 | A link is the kind's root, an action and the document id |
| CustomerViews.LinkRoundTrip | app/dashboard/customers/components/quotes-list.tsx:35-44 | A link reads back as its id and whether the document is a draft |
| CustomerViews.InvoiceDraftLink | app/dashboard/customers/components/invoices-list.tsx:37-46 | Only a DRAFT invoice opens in the editor |
| CustomerViews.RenderList | app/dashboard/customers/components/invoices-list.tsx:17-86 | An empty list shows the empty state; otherwise one row per document, in order, each followed by a separator except the last |
| CustomerViews.SeparatorCount | app/dashboard/customers/components/invoices-list.tsx:80 | A list of n documents shows n - 1 separators |
| CustomerViews.SeparatorsExceptLast | app/dashboard/customers/components/quotes-list.tsx:78 | Rows that carry a separator everywhere but the last carry one fewer separators than rows |

## Left out

- Rendering, React state, icons and the detail sheet's copy button: only the
  values displayed are modelled.
- A null customer sheet and a null list: the detail sheet renders nothing
  and a null list shows the empty state. The model takes a customer record
  and a (possibly empty) sequence.
- Cookies, redirects and `revalidatePath`: a redirect is the error
  `Redirected`, and a cookie's value is an input or a result.
- The authentication provider: its answer is the input `AuthOutcome`, and
  the signed-in user is an input.
- Money in floating point: prices and tax rates are exact rationals, so
  binary rounding errors of `price * 100` are not modelled.
- Invoices.Round: models `Math.round` on exact values only.
- Quantity must be a number of at least 1; the model takes it as an integer.
  Fractional quantities are not modelled.
- Number formatting with `Intl` (`formatCurrency`, `formatDate`, `total / 100`)
  and the status labels table: they only affect display.
- Text.ValidEmail: a simple stand-in (`x@y.z` shape) for the schema library's
  e-mail pattern; no contract depends on its details.
- Text.UpperChar: upper-cases ASCII letters only. `toUpperCase`'s full
  Unicode mapping (which can lengthen a string) is not modelled.
- CustomerViews.Initials: `slice(0, 2)` counts UTF-16 code units and the
  model counts characters. They agree on the basic plane.
- Numerals.ParseInt: models `parseInt` exactly on integers (leading white
  space, sign, `0x`, digit prefix, `NaN`). It is not limited to the
  precision of a double.
- The admin lookup in `addTeamMember`: its result is unused, so the model
  has no administrator gate on inviting.
- Concurrency: simultaneous invoice creations, the resulting numbering
  races, and the non-awaited preference update of `getUserContext`. Only
  the update's effect is modelled.
- The uniqueness of invoice numbers: no constraint on numbers is part of
  this model.
- `getInvoices` includes each invoice's customer names; the model returns
  the invoice rows only.
- `login` syncs with `data.user.email!`; an address missing from the
  provider's answer is not modelled.
- The organization settings form's logo upload (file name from `Date.now()`
  and the 2MB check): this is I/O.
- The client-side estimated total of the invoice form: floating-point
  display only.
