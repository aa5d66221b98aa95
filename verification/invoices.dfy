/** The invoice server actions of app/actions/invoices.ts: the totals of an
    invoice computed in cents on the server, the next invoice number of an
    organization, the creation of an invoice inside the active
    organization, the organization's invoice list, and this file's own
    variant of switching the active organization.

    Prices and tax rates are exact rationals (`real`) here; the source
    computes with IEEE doubles. `Math.round(x)` is `floor(x + 0.5)`. */
module Invoices {
  import opened Outcomes
  import opened Text
  import opened Numerals
  import opened InvoiceSchema
  import opened Store
  import opened OrgPreference

  // ---------------------------------------------------------------------
  // Totals in cents

  /** `Math.round`: the integer nearest to `x`, halves going up. */
  function Round(x: real): (r: int)
    ensures x - 0.5 < r as real <= x + 0.5
  {
    (x + 0.5).Floor
  }

  /** The price of a line in cents. */
  function PriceInCents(i: Item): int {
    Round(i.price * 100.0)
  }

  /** The line total before tax, in cents: the rounded unit price times
      the quantity. */
  function LineTotal(i: Item): int {
    PriceInCents(i) * i.quantity
  }

  /** The tax of one line, rounded to the cent on its own. */
  function LineTax(i: Item): int {
    Round(LineTotal(i) as real * (i.taxRate / 100.0))
  }

  /** The tax of one line before rounding. */
  function ExactLineTax(i: Item): real {
    LineTotal(i) as real * (i.taxRate / 100.0)
  }

  /** The sum of the line totals, accumulated from the first line. */
  function Subtotal(items: seq<Item>): int {
    if |items| == 0 then 0 else Subtotal(items[..|items| - 1]) + LineTotal(items[|items| - 1])
  }

  /** The sum of the rounded line taxes. */
  function TaxTotal(items: seq<Item>): int {
    if |items| == 0 then 0 else TaxTotal(items[..|items| - 1]) + LineTax(items[|items| - 1])
  }

  /** The sum of the unrounded line taxes. */
  function ExactTaxTotal(items: seq<Item>): real {
    if |items| == 0 then 0.0 else ExactTaxTotal(items[..|items| - 1]) + ExactLineTax(items[|items| - 1])
  }

  /** The stored form of a line: description, quantity, price in cents and
      tax rate; details, unit and discount are not stored. */
  function Stored(i: Item): (s: StoredItem)
    ensures s.description == i.description && s.quantity == i.quantity
    ensures s.price == PriceInCents(i) && s.taxRate == i.taxRate
  {
    StoredItem(i.description, i.quantity, PriceInCents(i), i.taxRate)
  }

  function StoredItems(items: seq<Item>): (r: seq<StoredItem>)
    ensures |r| == |items|
    ensures forall k :: 0 <= k < |items| ==> r[k] == Stored(items[k])
  {
    seq(|items|, k requires 0 <= k < |items| => Stored(items[k]))
  }

  /** The `items.map` of `createInvoice`: one pass that builds the stored
      lines and accumulates the subtotal and the tax in cents. */
  method ComputeTotals(items: seq<Item>) returns (subtotal: int, taxAmount: int, lines: seq<StoredItem>)
    ensures subtotal == Subtotal(items)
    ensures taxAmount == TaxTotal(items)
    ensures lines == StoredItems(items)
  {
    subtotal, taxAmount, lines := 0, 0, [];
    var k := 0;
    while k < |items|
      invariant 0 <= k <= |items|
      invariant subtotal == Subtotal(items[..k])
      invariant taxAmount == TaxTotal(items[..k])
      invariant lines == StoredItems(items[..k])
    {
      var item := items[k];
      var priceInCents := Round(item.price * 100.0);
      var lineTotal := priceInCents * item.quantity;
      var lineTax := Round(lineTotal as real * (item.taxRate / 100.0));
      assert items[..k + 1][..k] == items[..k];
      subtotal := subtotal + lineTotal;
      taxAmount := taxAmount + lineTax;
      lines := lines + [StoredItem(item.description, item.quantity, priceInCents, item.taxRate)];
      k := k + 1;
    }
    assert items[..k] == items;
  }

  /** A valid line has a non-negative total and tax. */
  lemma LineNonNegative(i: Item)
    requires ValidItem(i)
    ensures LineTotal(i) >= 0 && LineTax(i) >= 0
  {
    assert PriceInCents(i) >= 0;
    var t := LineTotal(i) as real;
    assert t >= 0.0;
    assert t * (i.taxRate / 100.0) >= 0.0;
  }

  /** Valid items never give a negative subtotal or tax. */
  lemma {:induction false} TotalsNonNegative(items: seq<Item>)
    requires forall k :: 0 <= k < |items| ==> ValidItem(items[k])
    ensures Subtotal(items) >= 0 && TaxTotal(items) >= 0
  {
    if |items| > 0 {
      TotalsNonNegative(items[..|items| - 1]);
      LineNonNegative(items[|items| - 1]);
    }
  }

  /** Rounding each line's tax on its own keeps the tax within half a cent
      per line of the exact tax. */
  lemma {:induction false} TaxRoundingBound(items: seq<Item>)
    ensures ExactTaxTotal(items) - |items| as real / 2.0 <= TaxTotal(items) as real
    ensures TaxTotal(items) as real <= ExactTaxTotal(items) + |items| as real / 2.0
  {
    if |items| > 0 {
      var init, i := items[..|items| - 1], items[|items| - 1];
      TaxRoundingBound(init);
      assert TaxTotal(items) == TaxTotal(init) + LineTax(i);
      assert ExactTaxTotal(items) == ExactTaxTotal(init) + ExactLineTax(i);
      assert ExactLineTax(i) - 0.5 < LineTax(i) as real <= ExactLineTax(i) + 0.5;
      assert |items| as real / 2.0 == |init| as real / 2.0 + 0.5;
    }
  }

  /** The rounded line taxes can differ from the rounded exact tax: two
      lines of 0.01 at a rate of 50 have 0.5 cent of exact tax each, which
      rounds to 1 cent per line, 2 cents in all, while the exact total of
      1 cent would round to 1. */
  lemma PerLineRoundingDiffers()
    ensures var i := Item("a", None, 1, DefaultUnite, 0.01, 0.0, 50.0);
      && ValidItem(i)
      && TaxTotal([i, i]) == 2
      && Round(ExactTaxTotal([i, i])) == 1
  {
    var i := Item("a", None, 1, DefaultUnite, 0.01, 0.0, 50.0);
    assert PriceInCents(i) == 1 by {
      assert i.price * 100.0 + 0.5 == 1.5;
    }
    assert LineTotal(i) == 1;
    assert ExactLineTax(i) == 0.5;
    assert LineTax(i) == 1 by {
      assert LineTotal(i) as real * (i.taxRate / 100.0) + 0.5 == 1.0;
    }
    assert [i, i][..1] == [i];
    assert [i][..0] == [];
    assert TaxTotal([i]) == 1;
    assert ExactTaxTotal([i]) == 0.5;
    assert ExactTaxTotal([i, i]) == 1.0;
  }

  /** Two lines that differ only in details, unit and discount. */
  predicate SameCharged(a: Item, b: Item) {
    a.description == b.description && a.quantity == b.quantity
    && a.price == b.price && a.taxRate == b.taxRate
  }

  /** The discount (and the details and unit) of a line change nothing that
      is computed or stored: subtotal, tax and stored lines are the same. */
  lemma {:induction false} DiscountIgnored(a: seq<Item>, b: seq<Item>)
    requires |a| == |b|
    requires forall k :: 0 <= k < |a| ==> SameCharged(a[k], b[k])
    ensures Subtotal(a) == Subtotal(b)
    ensures TaxTotal(a) == TaxTotal(b)
    ensures StoredItems(a) == StoredItems(b)
  {
    if |a| > 0 {
      DiscountIgnored(a[..|a| - 1], b[..|b| - 1]);
    }
  }

  // ---------------------------------------------------------------------
  // Invoice numbers

  const NumberPrefix: string := "INV-"

  /** The number written for sequence value `n`: `INV-` and at least three
      digits. */
  function InvoiceNumber(n: nat): string {
    NumberPrefix + PadStart(Decimal(n), 3, '0')
  }

  /** The text between the first and the second `-` of a number, or "0"
      when there is none or it is empty (`split("-")[1] || "0"`). */
  function NumberSegment(number: string): (r: string)
    ensures r != ""
    ensures '-' !in r
  {
    var parts := Split(number, '-');
    if |parts| >= 2 && parts[1] != "" then parts[1] else "0"
  }

  /** The value `parseInt` reads from a number; `None` is `NaN`. */
  function NumberValue(number: string): Option<int> {
    ParseInt(NumberSegment(number))
  }

  /** The number that follows the organization's latest one: "INV-001"
      for the first invoice, otherwise the latest value plus one, padded
      to three digits; a value `parseInt` cannot read gives "INV-NaN". */
  function NextInvoiceNumber(last: Option<string>): (r: string)
    ensures NumberPrefix <= r
    ensures last.Some? && NumberValue(last.value).None? ==> r == "INV-NaN"
  {
    match last
    case None => "INV-001"
    case Some(number) =>
      match NumberValue(number)
      case None => NumberPrefix + PadStart("NaN", 3, '0')
      case Some(v) => NumberPrefix + PadStart(IntToString(v + 1), 3, '0')
  }

  /** A padded decimal is made of digits and is at least three long. */
  lemma PaddedDigits(n: nat)
    ensures AllDigits(PadStart(Decimal(n), 3, '0'))
    ensures |PadStart(Decimal(n), 3, '0')| >= 3
  {
    var d := Decimal(n);
    var p := PadStart(d, 3, '0');
    assert p == Repeat('0', |p| - |d|) + d;
    LeadingZeros(|p| - |d|, d);
  }

  lemma JoinPair(a: string, b: string, c: char)
    ensures Join([a, b], c) == a + [c] + b
  {
    assert [a, b][1..] == [b];
  }

  /** A number is the prefix word, a `-` and the padded digits. */
  lemma NumberIsDashed(n: nat)
    ensures InvoiceNumber(n) == "INV" + ['-'] + PadStart(Decimal(n), 3, '0')
  {
    assert NumberPrefix == "INV" + ['-'];
  }

  /** The segment of `w-p` is `p` when neither part has a `-`. */
  lemma SegmentOfDashed(w: string, p: string)
    requires '-' !in w && '-' !in p && p != ""
    ensures NumberSegment(w + ['-'] + p) == p
  {
    assert NoSeparator([w, p], '-');
    JoinPair(w, p, '-');
    SplitJoin([w, p], '-');
  }

  /** Digits contain no `-`. */
  lemma DigitsHaveNoDash(p: string)
    requires AllDigits(p)
    ensures '-' !in p
  {
  }

  /** The segment of a written number is its padded digits. */
  lemma SegmentOfNumber(n: nat)
    ensures NumberSegment(InvoiceNumber(n)) == PadStart(Decimal(n), 3, '0')
  {
    var p := PadStart(Decimal(n), 3, '0');
    assert '-' !in p && p != "" by {
      PaddedDigits(n);
      DigitsHaveNoDash(p);
    }
    assert InvoiceNumber(n) == "INV" + ['-'] + p by {
      NumberIsDashed(n);
    }
    SegmentOfDashed("INV", p);
  }

  /** A written number reads back as its value. */
  lemma NumberRoundTrip(n: nat)
    ensures NumberValue(InvoiceNumber(n)) == Some(n)
  {
    SegmentOfNumber(n);
    ParseIntOfPadded(n, 3);
  }

  /** The number after `InvoiceNumber(n)` is `InvoiceNumber(n + 1)`: numbers
      written by this action count up by one. */
  lemma NextAfterNumber(n: nat)
    ensures NextInvoiceNumber(Some(InvoiceNumber(n))) == InvoiceNumber(n + 1)
  {
    NumberRoundTrip(n);
  }

  /** The first number of an organization is the number of 1. */
  lemma FirstNumber()
    ensures NextInvoiceNumber(None) == InvoiceNumber(1)
  {
    assert Decimal(1) == "1";
    assert Repeat('0', 2) == "00";
  }

  /** The number of a one-digit value. */
  lemma NumberOfDigit(d: nat)
    requires d < 10
    ensures InvoiceNumber(d) == "INV-00" + [DigitChar(d)]
  {
    assert Repeat('0', 2) == "00";
  }

  /** The number of a value of three digits, which is not padded. */
  lemma NumberOfThreeDigits(n: nat)
    requires 100 <= n < 1000
    ensures InvoiceNumber(n) == "INV-" + [DigitChar(n / 100), DigitChar(n / 10 % 10), DigitChar(n % 10)]
  {
    var b, c := n / 100, n / 10;
    assert c / 10 == b;
    assert Decimal(c) == [DigitChar(b), DigitChar(c % 10)];
    assert Decimal(n) == [DigitChar(b), DigitChar(c % 10), DigitChar(n % 10)];
  }

  /** The number of a value of four digits, which is not padded. */
  lemma NumberOfFourDigits(n: nat)
    requires 1000 <= n < 10000
    ensures InvoiceNumber(n) == "INV-" + [DigitChar(n / 1000), DigitChar(n / 100 % 10), DigitChar(n / 10 % 10), DigitChar(n % 10)]
  {
    var a, b, c := n / 1000, n / 100, n / 10;
    assert b / 10 == a && c / 10 == b;
    assert Decimal(b) == [DigitChar(a), DigitChar(b % 10)];
    assert Decimal(c) == [DigitChar(a), DigitChar(b % 10), DigitChar(c % 10)];
    assert Decimal(n) == [DigitChar(a), DigitChar(b % 10), DigitChar(c % 10), DigitChar(n % 10)];
  }

  /** The number of 7 is "INV-007". */
  lemma NumberSeven(n: nat)
    requires n == 7
    ensures InvoiceNumber(n) == "INV-007"
  {
    NumberOfDigit(n);
    assert DigitChar(n) == '7';
  }

  /** The number of 8 is "INV-008". */
  lemma NumberEight(n: nat)
    requires n == 8
    ensures InvoiceNumber(n) == "INV-008"
  {
    NumberOfDigit(n);
    assert DigitChar(n) == '8';
  }

  /** The number of 7, "INV-007" (see `NumberSeven`), is followed by
      "INV-008". */
  lemma NextAfterSeven(n: nat)
    requires n == 7
    ensures NextInvoiceNumber(Some(InvoiceNumber(n))) == "INV-008"
  {
    NumberEight(n + 1);
    NextAfterNumber(n);
  }

  /** The number of 999 is "INV-999". */
  lemma NumberNineNineNine(n: nat)
    requires n == 999
    ensures InvoiceNumber(n) == "INV-999"
  {
    NumberOfThreeDigits(n);
    assert n / 100 == 9 && n / 10 % 10 == 9 && n % 10 == 9;
    assert DigitChar(9) == '9';
  }

  /** The number of 1000 is "INV-1000". */
  lemma NumberThousand(n: nat)
    requires n == 1000
    ensures InvoiceNumber(n) == "INV-1000"
  {
    NumberOfFourDigits(n);
    assert n / 1000 == 1 && n / 100 % 10 == 0 && n / 10 % 10 == 0 && n % 10 == 0;
    assert DigitChar(1) == '1' && DigitChar(0) == '0';
  }

  /** The number of 999, "INV-999" (see `NumberNineNineNine`), is followed
      by "INV-1000": the padding is a minimum width. */
  lemma NextAfterNineNineNine(n: nat)
    requires n == 999
    ensures NextInvoiceNumber(Some(InvoiceNumber(n))) == "INV-1000"
  {
    NumberThousand(n + 1);
    NextAfterNumber(n);
  }

  /** A number whose segment `parseInt` cannot read is followed by
      "INV-NaN". */
  lemma NextAfterNonNumeric(last: string)
    requires last == "INV-abc"
    ensures NextInvoiceNumber(Some(last)) == "INV-NaN"
  {
    var w, p := "INV", "abc";
    assert last == w + ['-'] + p;
    SegmentOfDashed(w, p);
    assert ParseInt(p) == None by {
      assert !IsSpace(p[0]);
      assert TrimStart(p) == p;
      assert !IsDigit(p[0]);
      assert DigitPrefix(p) == [];
    }
  }

  /** The number of the organization's latest invoice (the last one
      created), if it has any. */
  function LastInvoiceNumber(invoices: seq<Invoice>, org: OrgId): (r: Option<string>)
    ensures r.None? <==> forall k :: 0 <= k < |invoices| ==> invoices[k].organizationId != org
    ensures r.Some? ==> exists k :: (0 <= k < |invoices| && invoices[k].organizationId == org
      && invoices[k].number == r.value
      && forall j :: k < j < |invoices| ==> invoices[j].organizationId != org)
  {
    if |invoices| == 0 then None
    else
      var last := invoices[|invoices| - 1];
      if last.organizationId == org then Some(last.number)
      else
        var r := LastInvoiceNumber(invoices[..|invoices| - 1], org);
        assert forall k :: 0 <= k < |invoices| - 1 ==> invoices[..|invoices| - 1][k] == invoices[k];
        r
  }

  // ---------------------------------------------------------------------
  // The actions

  /** The organization `requireUserOrganization` resolves, when it
      resolves one. */
  function ActiveOrg(db: Db, auth: Option<UserId>): (r: Option<OrgId>)
    ensures r.Some? ==> auth.Some? && IsMember(db, auth.value, r.value)
  {
    var res := RequireUserOrganization(db, auth).result;
    if res.Success? then res.value else None
  }

  /** The invoice `createInvoice` writes for validated data `v` in
      organization `org`. */
  function NewInvoice(invoices: seq<Invoice>, org: OrgId, v: InvoiceData): (inv: Invoice)
    ensures inv.organizationId == org && inv.customerId == v.customerId
    ensures inv.number == NextInvoiceNumber(LastInvoiceNumber(invoices, org))
    ensures inv.subtotal == Subtotal(v.items) && inv.tax == TaxTotal(v.items)
    ensures inv.total == inv.subtotal + inv.tax
    ensures inv.items == StoredItems(v.items)
    ensures inv.status == v.status && inv.date == v.date && inv.dueDate == v.dueDate && inv.note == v.note
  {
    var subtotal := Subtotal(v.items);
    var tax := TaxTotal(v.items);
    Invoice(org, v.customerId, NextInvoiceNumber(LastInvoiceNumber(invoices, org)),
            v.status, v.date, v.dueDate, v.note, subtotal, tax, subtotal + tax, StoredItems(v.items))
  }

  /** `createInvoice`: resolve the active organization, validate the data,
      compute the totals and append the invoice; the result is the path
      the action redirects to. */
  function CreateInvoice(db: Db, auth: Option<UserId>, data: InvoiceInput): (s: Step<string>)
    ensures auth.None? ==> s == Step(Failure(Redirected("/auth/login")), db)
    // no active organization
    ensures RequireUserOrganization(db, auth).result == Success(None) ==>
      s.result == Failure(Thrown("Organisation introuvable"))
    // rejected data: every issue reported, no invoice written
    ensures ActiveOrg(db, auth).Some? && ParseInvoice(data).Failure? ==>
      s.result == Failure(InvalidInput(ParseInvoice(data).error)) && s.db.invoices == db.invoices
    // on success exactly one invoice is appended, in an organization the
    // user belongs to, with the totals of the validated items
    ensures s.result.Success? ==>
      && s.result.value == "/dashboard/invoices"
      && auth.Some? && ParseInvoice(data).Success? && ActiveOrg(db, auth).Some?
      && var org := ActiveOrg(db, auth).value;
         var v := ParseInvoice(data).value;
         && IsMember(db, auth.value, org)
         && ValidInvoice(v)
         && s.db.invoices == db.invoices + [NewInvoice(db.invoices, org, v)]
    ensures (Valid(db) && ActiveOrg(db, auth).Some? && ParseInvoice(data).Success?
             && ParseInvoice(data).value.customerId in CustomerIds(db.customers)) ==> s.result.Success?
    ensures s.db.orgs == db.orgs && s.db.memberships == db.memberships && s.db.customers == db.customers
    ensures s.result.Failure? ==> s.db.invoices == db.invoices
    // besides the invoice, at most the caller's preference changes
    ensures auth.Some? && s.result.Failure? ==> OnlyPreferenceChanged(db, s.db, auth.value)
    ensures s.result.Success? ==> OnlyPreferenceChanged(db, s.db.(invoices := db.invoices), auth.value)
    ensures Valid(db) ==> Valid(s.db)
  {
    var ctx := RequireUserOrganization(db, auth);
    match ctx.result
    case Failure(e) => Step(Failure(e), ctx.db)
    case Success(None) => Step(Failure(Thrown("Organisation introuvable")), ctx.db)
    case Success(Some(org)) =>
      match ParseInvoice(data)
      case Failure(issues) => Step(Failure(InvalidInput(issues)), ctx.db)
      case Success(v) =>
        assert ctx.db.invoices == db.invoices;
        match InsertInvoice(ctx.db, NewInvoice(db.invoices, org, v))
        case Failure(e) => Step(Failure(DbFailed(e)), ctx.db)
        case Success(db') => Step(Success("/dashboard/invoices"), db')
  }

  /** The invoices of one organization, in creation order. */
  function InvoicesOfOrg(invoices: seq<Invoice>, org: OrgId): (r: seq<Invoice>)
    ensures forall k :: 0 <= k < |r| ==> r[k].organizationId == org
    ensures forall inv :: inv in r <==> inv in invoices && inv.organizationId == org
    ensures |r| <= |invoices|
  {
    if |invoices| == 0 then []
    else
      var rest := InvoicesOfOrg(invoices[..|invoices| - 1], org);
      var last := invoices[|invoices| - 1];
      assert invoices == invoices[..|invoices| - 1] + [last];
      if last.organizationId == org then rest + [last] else rest
  }

  function Reverse<T>(s: seq<T>): (r: seq<T>)
    ensures |r| == |s|
    ensures forall k :: 0 <= k < |s| ==> r[k] == s[|s| - 1 - k]
  {
    seq(|s|, k requires 0 <= k < |s| => s[|s| - 1 - k])
  }

  lemma ReverseReverse<T>(s: seq<T>)
    ensures Reverse(Reverse(s)) == s
  {
  }

  lemma ReverseSameElements<T>(s: seq<T>)
    ensures forall x :: x in Reverse(s) <==> x in s
  {
    forall x | x in s
      ensures x in Reverse(s)
    {
      var k :| 0 <= k < |s| && s[k] == x;
      assert Reverse(s)[|s| - 1 - k] == x;
    }
  }

  /** `getInvoices`: the active organization's invoices, newest first; an
      empty list when there is no active organization. */
  function GetInvoices(db: Db, auth: Option<UserId>): (s: Step<seq<Invoice>>)
    ensures auth.None? ==> s == Step(Failure(Redirected("/auth/login")), db)
    ensures Valid(db) && auth.Some? ==> s.result.Success?
    // tenant isolation: only invoices of an organization the user belongs to
    ensures s.result.Success? ==> forall k :: 0 <= k < |s.result.value| ==>
      auth.Some? && IsMember(db, auth.value, s.result.value[k].organizationId)
    ensures s.result.Success? && RequireUserOrganization(db, auth).result == Success(None) ==> s.result.value == []
    // all of the organization's invoices, newest first
    ensures s.result.Success? && ActiveOrg(db, auth).Some? ==>
      var org := ActiveOrg(db, auth).value;
      && (forall inv :: inv in s.result.value <==> inv in db.invoices && inv.organizationId == org)
      && Reverse(s.result.value) == InvoicesOfOrg(db.invoices, org)
    ensures auth.Some? ==> OnlyPreferenceChanged(db, s.db, auth.value)
  {
    var ctx := RequireUserOrganization(db, auth);
    match ctx.result
    case Failure(e) => Step(Failure(e), ctx.db)
    case Success(None) => Step(Success([]), ctx.db)
    case Success(Some(org)) =>
      var f := InvoicesOfOrg(db.invoices, org);
      var r := Reverse(f);
      ReverseReverse(f);
      ReverseSameElements(f);
      Step(Success(r), ctx.db)
  }

  /** The `switchOrganization` of app/actions/invoices.ts: a membership
      check, then the stored preference; no cookie is written. */
  function SwitchOrganization(db: Db, auth: Option<UserId>, orgId: OrgId): (s: Step<()>)
    ensures auth.None? ==> s == Step(Failure(Thrown("Non authentifié")), db)
    ensures auth.Some? && !IsMember(db, auth.value, orgId) ==>
      s == Step(Failure(Thrown("Accès refusé à cette organisation")), db)
    ensures s.result.Success? ==>
      auth.Some? && IsMember(db, auth.value, orgId) && StoredPreference(s.db, auth.value) == Some(orgId)
    ensures Valid(db) && auth.Some? && IsMember(db, auth.value, orgId) ==> s.result.Success?
    ensures s.result.Failure? ==> s.db == db
    ensures auth.Some? ==> OnlyPreferenceChanged(db, s.db, auth.value)
    ensures Valid(db) ==> Valid(s.db)
  {
    match auth
    case None => Step(Failure(Thrown("Non authentifié")), db)
    case Some(uid) =>
      match FindMembership(db, uid, orgId)
      case None => Step(Failure(Thrown("Accès refusé à cette organisation")), db)
      case Some(m) =>
        match SetLastViewed(db, uid, orgId)
        case Failure(e) => Step(Failure(DbFailed(e)), db)
        case Success(db') => Step(Success(()), db')
  }
}
