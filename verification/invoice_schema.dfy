/** The validation schemas of `lib/schemas/invoice.ts`: an invoice status
    enumeration, a line-item schema and the invoice-creation schema, each
    with the defaults the schema fills in. Input fields are `Option`s:
    `None` is a missing (undefined) field; values of a wrong JavaScript
    type are not represented. */
module InvoiceSchema {
  import opened Outcomes

  datatype Status = DRAFT | SENT | PAID | OVERDUE | CANCELLED

  const DefaultStatus: Status := DRAFT
  const DefaultQuantity: int := 1
  const DefaultUnite: string := "unité"
  const DefaultDiscount: real := 0.0
  const DefaultTaxRate: real := 20.0

  /** A validation issue, located the way the schema library reports it:
      a top-level field, or a field of the item at a given index. */
  datatype Issue = FieldIssue(field: string) | ItemIssue(index: nat, field: string)

  function StatusName(s: Status): string {
    match s
    case DRAFT => "DRAFT"
    case SENT => "SENT"
    case PAID => "PAID"
    case OVERDUE => "OVERDUE"
    case CANCELLED => "CANCELLED"
  }

  /** The status enumeration accepts exactly the five names. */
  function ParseStatus(name: string): (r: Option<Status>)
    ensures r.Some? ==> StatusName(r.value) == name
    ensures r.None? ==> forall s: Status :: StatusName(s) != name
  {
    if name == "DRAFT" then Some(DRAFT)
    else if name == "SENT" then Some(SENT)
    else if name == "PAID" then Some(PAID)
    else if name == "OVERDUE" then Some(OVERDUE)
    else if name == "CANCELLED" then Some(CANCELLED)
    else None
  }

  /** Every status survives being written out and read back. */
  lemma StatusRoundTrip(s: Status)
    ensures ParseStatus(StatusName(s)) == Some(s)
  {
  }

  /** A line item as submitted. */
  datatype ItemInput = ItemInput(
    description: Option<string>,
    details: Option<string>,
    quantity: Option<int>,
    unite: Option<string>,
    price: Option<real>,
    discount: Option<real>,
    taxRate: Option<real>)

  /** A line item once the schema accepted it and filled in its defaults. */
  datatype Item = Item(
    description: string,
    details: Option<string>,
    quantity: int,
    unite: string,
    price: real,
    discount: real,
    taxRate: real)

  /** What every accepted item satisfies. */
  predicate ValidItem(i: Item) {
    && i.description != ""
    && i.quantity >= 1
    && i.price >= 0.0
    && i.discount >= 0.0
    && i.taxRate >= 0.0
  }

  /** The names of the item fields the schema rejects. */
  function ItemErrors(i: ItemInput): set<string> {
    (if i.description.None? || i.description.value == "" then {"description"} else {})
    + (if i.quantity.Some? && i.quantity.value < 1 then {"quantity"} else {})
    + (if i.price.None? || i.price.value < 0.0 then {"price"} else {})
    + (if i.discount.Some? && i.discount.value < 0.0 then {"discount"} else {})
    + (if i.taxRate.Some? && i.taxRate.value < 0.0 then {"taxRate"} else {})
  }

  /** `invoiceItemSchema.parse`: either the accepted item, with defaults
      for a missing quantity (1), unit ("unité"), discount (0) and tax
      rate (20), or the set of rejected fields. */
  function ParseItem(i: ItemInput): (r: Result<Item, set<string>>)
    ensures r.Success? ==> ValidItem(r.value)
    ensures r.Success? ==>
      && Some(r.value.description) == i.description
      && r.value.details == i.details
      && r.value.quantity == i.quantity.GetOr(DefaultQuantity)
      && r.value.unite == i.unite.GetOr(DefaultUnite)
      && Some(r.value.price) == i.price
      && r.value.discount == i.discount.GetOr(DefaultDiscount)
      && r.value.taxRate == i.taxRate.GetOr(DefaultTaxRate)
    ensures r.Failure? ==> r.error != {}
  {
    var errors := ItemErrors(i);
    if errors != {} then Failure(errors)
    else Success(Item(
      i.description.value,
      i.details,
      i.quantity.GetOr(DefaultQuantity),
      i.unite.GetOr(DefaultUnite),
      i.price.value,
      i.discount.GetOr(DefaultDiscount),
      i.taxRate.GetOr(DefaultTaxRate)))
  }

  /** An item written back as a fully-filled submission. */
  function ItemToInput(i: Item): ItemInput {
    ItemInput(Some(i.description), i.details, Some(i.quantity), Some(i.unite),
              Some(i.price), Some(i.discount), Some(i.taxRate))
  }

  /** The schema accepts a submitted item exactly when the item is valid,
      and then gives it back unchanged. */
  lemma ItemRoundTrip(i: Item)
    ensures ParseItem(ItemToInput(i)).Success? <==> ValidItem(i)
    ensures ValidItem(i) ==> ParseItem(ItemToInput(i)) == Success(i)
  {
    if !ValidItem(i) {
      assert ItemErrors(ItemToInput(i)) != {};
    }
  }

  /** Parses every item; all issues are collected, indexed by position. */
  function ParseItems(xs: seq<ItemInput>): (r: Result<seq<Item>, set<Issue>>)
    ensures r.Success? <==> forall k :: 0 <= k < |xs| ==> ParseItem(xs[k]).Success?
    ensures r.Success? ==>
      && |r.value| == |xs|
      && forall k :: 0 <= k < |xs| ==> r.value[k] == ParseItem(xs[k]).value
    ensures r.Failure? ==>
      && r.error != {}
      && forall issue :: issue in r.error ==>
           issue.ItemIssue? && issue.index < |xs| && ParseItem(xs[issue.index]).Failure?
  {
    if forall k :: 0 <= k < |xs| ==> ParseItem(xs[k]).Success? then
      Success(seq(|xs|, k requires 0 <= k < |xs| => ParseItem(xs[k]).value))
    else
      var k :| 0 <= k < |xs| && ParseItem(xs[k]).Failure?;
      var first := ParseItem(xs[k]).error;
      var f :| f in first;
      var issues := set j, g | 0 <= j < |xs| && g in ItemErrors(xs[j]) :: ItemIssue(j, g);
      assert ItemIssue(k, f) in issues;
      Failure(issues)
  }

  /** An invoice as submitted. Dates are instants in milliseconds; `None`
      stands for a missing or invalid date. */
  datatype InvoiceInput = InvoiceInput(
    customerId: Option<string>,
    date: Option<int>,
    dueDate: Option<int>,
    status: Option<string>,
    items: Option<seq<ItemInput>>,
    note: Option<string>)

  /** An invoice once the schema accepted it. */
  datatype InvoiceData = InvoiceData(
    customerId: string,
    date: int,
    dueDate: int,
    status: Status,
    items: seq<Item>,
    note: Option<string>)

  /** What every accepted invoice satisfies. */
  predicate ValidInvoice(d: InvoiceData) {
    && d.customerId != ""
    && |d.items| >= 1
    && forall k :: 0 <= k < |d.items| ==> ValidItem(d.items[k])
  }

  /** The issues of the top-level invoice fields. */
  function InvoiceFieldIssues(i: InvoiceInput): set<Issue> {
    (if i.customerId.None? || i.customerId.value == "" then {FieldIssue("customerId")} else {})
    + (if i.date.None? then {FieldIssue("date")} else {})
    + (if i.dueDate.None? then {FieldIssue("dueDate")} else {})
    + (if i.status.Some? && ParseStatus(i.status.value).None? then {FieldIssue("status")} else {})
    + (if i.items.None? || |i.items.value| == 0 then {FieldIssue("items")} else {})
  }

  /** `createInvoiceSchema.parse`: the accepted invoice, with status
      defaulting to DRAFT, or every issue found. */
  function ParseInvoice(i: InvoiceInput): (r: Result<InvoiceData, set<Issue>>)
    ensures r.Success? ==> ValidInvoice(r.value)
    ensures r.Success? ==>
      && Some(r.value.customerId) == i.customerId
      && Some(r.value.date) == i.date
      && Some(r.value.dueDate) == i.dueDate
      && (i.status.None? ==> r.value.status == DefaultStatus)
      && (i.status.Some? ==> ParseStatus(i.status.value) == Some(r.value.status))
      && r.value.note == i.note
      && i.items.Some? && ParseItems(i.items.value) == Success(r.value.items)
    // accepted exactly when every field is well formed
    ensures r.Success? <==>
      && i.customerId.Some? && i.customerId.value != ""
      && i.date.Some? && i.dueDate.Some?
      && (i.status.Some? ==> ParseStatus(i.status.value).Some?)
      && i.items.Some? && |i.items.value| >= 1
      && forall k :: 0 <= k < |i.items.value| ==> ParseItem(i.items.value[k]).Success?
    ensures r.Failure? ==> r.error != {}
    ensures i.customerId == Some("") ==> r.Failure? && FieldIssue("customerId") in r.error
    ensures i.items == Some([]) ==> r.Failure? && FieldIssue("items") in r.error
  {
    var fieldIssues := InvoiceFieldIssues(i);
    var items := if i.items.Some? then ParseItems(i.items.value) else Success([]);
    var issues := fieldIssues + (if items.Failure? then items.error else {});
    if issues != {} then Failure(issues)
    else Success(InvoiceData(
      i.customerId.value,
      i.date.value,
      i.dueDate.value,
      if i.status.None? then DefaultStatus else ParseStatus(i.status.value).value,
      items.value,
      i.note))
  }

  /** The form a client sends for an invoice. */
  function InvoiceToInput(d: InvoiceData): InvoiceInput {
    InvoiceInput(Some(d.customerId), Some(d.date), Some(d.dueDate), Some(StatusName(d.status)),
                 Some(seq(|d.items|, k requires 0 <= k < |d.items| => ItemToInput(d.items[k]))), d.note)
  }

  /** The schema accepts a submitted invoice exactly when the invoice is
      valid, and then gives it back unchanged. */
  lemma InvoiceRoundTrip(d: InvoiceData)
    ensures ParseInvoice(InvoiceToInput(d)).Success? <==> ValidInvoice(d)
    ensures ValidInvoice(d) ==> ParseInvoice(InvoiceToInput(d)) == Success(d)
  {
    var input := InvoiceToInput(d);
    var xs := input.items.value;
    StatusRoundTrip(d.status);
    forall k | 0 <= k < |d.items|
      ensures ParseItem(xs[k]).Success? <==> ValidItem(d.items[k])
      ensures ValidItem(d.items[k]) ==> ParseItem(xs[k]).value == d.items[k]
    {
      ItemRoundTrip(d.items[k]);
    }
    if ValidInvoice(d) {
      var r := ParseInvoice(input).value;
      assert r.items == d.items by {
        assert ParseItems(xs) == Success(r.items);
        assert |r.items| == |d.items|;
        forall k | 0 <= k < |d.items| ensures r.items[k] == d.items[k] {
          assert r.items[k] == ParseItem(xs[k]).value;
        }
      }
    }
  }
}
