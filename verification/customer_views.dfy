/** What the customer pages display: the detail sheet of
    app/dashboard/customers/customer-details.tsx (name, initials, address
    block, the rows shown) and the invoice and quote lists of
    app/dashboard/customers/components/ (client name, link, separators,
    empty state). Rendering, icons and the copy button are not modelled;
    dates and amounts are formatted elsewhere and arrive as text. */
module CustomerViews {
  import opened Outcomes
  import opened Text
  import opened InvoiceSchema

  /** The customer record the detail sheet receives; any field may be null. */
  datatype CustomerView = CustomerView(
    companyName: Option<string>,
    firstName: Option<string>,
    lastName: Option<string>,
    email: Option<string>,
    phone: Option<string>,
    address: Option<string>,
    zipCode: Option<string>,
    city: Option<string>,
    vatNumber: Option<string>)

  /** A possibly-null value inside a template literal: `null` prints as
      the word. */
  function Interpolate(s: Option<string>): (r: string)
  {
    match s
    case Some(v) => v
    case None => "null"
  }

  /** `companyName || \`${firstName} ${lastName}\``. */
  function DisplayName(c: CustomerView): (r: string)
    ensures r != ""
    ensures Truthy(c.companyName) ==> r == c.companyName.value
    ensures !Truthy(c.companyName) ==> r == Interpolate(c.firstName) + " " + Interpolate(c.lastName)
  {
    if Truthy(c.companyName) then c.companyName.value
    else Interpolate(c.firstName) + " " + Interpolate(c.lastName)
  }

  /** `displayName.slice(0, 2).toUpperCase()`. */
  function Initials(c: CustomerView): (r: string)
    ensures 1 <= |r| <= 2
    ensures |r| == if |DisplayName(c)| < 2 then |DisplayName(c)| else 2
    ensures forall k :: 0 <= k < |r| ==> r[k] == UpperChar(DisplayName(c)[k])
  {
    ToUpper(Prefix(DisplayName(c), 2))
  }

  /** A company-less customer with both names is shown by first and last
      name, initialled by the first two letters of the first name. */
  lemma PersonInitials(c: CustomerView, first: string, last: string)
    requires !Truthy(c.companyName) && c.firstName == Some(first) && c.lastName == Some(last)
    requires |first| >= 2
    ensures DisplayName(c) == first + " " + last
    ensures Initials(c) == [UpperChar(first[0]), UpperChar(first[1])]
  {
    assert DisplayName(c)[0] == first[0] && DisplayName(c)[1] == first[1];
  }

  /** The lines of the address block: the street, then the postcode and
      the city joined by a space; empty parts are dropped. */
  function AddressLines(c: CustomerView): (r: seq<string>)
    ensures |r| <= 2
    ensures forall k :: 0 <= k < |r| ==> r[k] != ""
    ensures r == [] <==> !Truthy(c.address) && !Truthy(c.zipCode) && !Truthy(c.city)
    ensures Truthy(c.address) ==> r[0] == c.address.value
    // one line for the street, one for the town, each when present
    ensures |r| == (if Truthy(c.address) then 1 else 0) + (if Truthy(c.zipCode) || Truthy(c.city) then 1 else 0)
    ensures Truthy(c.zipCode) && Truthy(c.city) ==> r[|r| - 1] == c.zipCode.value + " " + c.city.value
    ensures Truthy(c.zipCode) && !Truthy(c.city) ==> r[|r| - 1] == c.zipCode.value
    ensures !Truthy(c.zipCode) && Truthy(c.city) ==> r[|r| - 1] == c.city.value
  {
    var town := Compact([c.zipCode, c.city]);
    CompactPair(c.zipCode, c.city);
    assert town != [] ==> Join(town, ' ') != "" by {
      if |town| > 1 { assert Join(town, ' ')[|town[0]|] == ' '; }
    }
    assert Truthy(c.zipCode) && Truthy(c.city) ==> Join(town, ' ') == c.zipCode.value + " " + c.city.value by {
      if Truthy(c.zipCode) && Truthy(c.city) {
        assert town[1..] == [c.city.value];
      }
    }
    CompactPair(c.address, Some(Join(town, ' ')));
    Compact([c.address, Some(Join(town, ' '))])
  }

  /** The address block: its lines joined by line breaks. */
  function FormattedAddress(c: CustomerView): string {
    Join(AddressLines(c), '\n')
  }

  /** No part of the address holds a line break. */
  predicate SingleLineParts(c: CustomerView) {
    && (c.address.Some? ==> '\n' !in c.address.value)
    && (c.zipCode.Some? ==> '\n' !in c.zipCode.value)
    && (c.city.Some? ==> '\n' !in c.city.value)
  }

  /** When no part holds a line break, the displayed block splits back into
      its lines. */
  lemma AddressReadBack(c: CustomerView)
    requires SingleLineParts(c)
    requires Truthy(c.address) || Truthy(c.zipCode) || Truthy(c.city)
    ensures Split(FormattedAddress(c), '\n') == AddressLines(c)
  {
    var town := Compact([c.zipCode, c.city]);
    assert NoSeparator(town, '\n') by {
      forall k | 0 <= k < |town| ensures '\n' !in town[k] {
        assert Some(town[k]) in [c.zipCode, c.city];
      }
    }
    JoinKeepsOut(town, ' ', '\n');
    var lines := AddressLines(c);
    assert NoSeparator(lines, '\n') by {
      forall k | 0 <= k < |lines| ensures '\n' !in lines[k] {
        assert Some(lines[k]) in [c.address, Some(Join(town, ' '))];
      }
    }
    SplitJoin(lines, '\n');
  }

  /** Joining on one character adds only that character. */
  lemma {:induction false} JoinKeepsOut(parts: seq<string>, sep: char, c: char)
    requires sep != c && NoSeparator(parts, c)
    ensures c !in Join(parts, sep)
    decreases |parts|
  {
    if |parts| > 1 {
      JoinKeepsOut(parts[1..], sep, c);
      assert Join(parts, sep) == parts[0] + [sep] + Join(parts[1..], sep);
    }
  }

  /** One row of the detail sheet: its caption and the text shown. */
  datatype DetailLine = DetailLine(caption: string, shown: string)

  /** `value || fallback`, with the row's default fallback `-`. */
  function Shown(value: Option<string>, fallback: string): (r: string)
  {
    if Truthy(value) then value.value else fallback
  }

  /** The rows of the detail sheet; `since` is the formatted creation date.
      The VAT row appears only for a customer with a VAT number. */
  function DetailLines(c: CustomerView, since: string): (r: seq<DetailLine>)
    ensures |r| == if Truthy(c.vatNumber) then 5 else 4
    ensures r[0] == DetailLine("Email principal", Shown(c.email, "-"))
    ensures r[1] == DetailLine("Téléphone", Shown(c.phone, "-"))
    ensures r[2].shown == (if FormattedAddress(c) != "" then FormattedAddress(c) else "-")
    ensures (exists k :: 0 <= k < |r| && r[k].caption == "Numéro de TVA") <==> Truthy(c.vatNumber)
    ensures Truthy(c.vatNumber) ==> r[3] == DetailLine("Numéro de TVA", c.vatNumber.value)
    ensures r[|r| - 1] == DetailLine("Client depuis le", since)
  {
    var address := FormattedAddress(c);
    var r := [DetailLine("Email principal", Shown(c.email, "-")),
     DetailLine("Téléphone", Shown(c.phone, "-")),
     DetailLine("", Shown(Some(address), "-"))]
    + (if Truthy(c.vatNumber) then [DetailLine("Numéro de TVA", Shown(c.vatNumber, "Non renseigné"))] else [])
    + [DetailLine("Client depuis le", since)];
    assert Truthy(c.vatNumber) ==> r[3].caption == "Numéro de TVA";
    r
  }

  // ---------------------------------------------------------------------
  // The invoice and quote lists of a customer

  /** Which list: both render the same way under their own paths. */
  datatype DocKind = InvoiceDocs | QuoteDocs

  /** A listed document with the names of its customer. */
  datatype ListEntry = ListEntry(
    id: string,
    number: string,
    status: string,
    companyName: Option<string>,
    firstName: Option<string>,
    lastName: Option<string>)

  /** `companyName || \`${firstName || ""} ${lastName || ""}\`.trim() ||
      "Client inconnu"`. */
  function ClientName(companyName: Option<string>, firstName: Option<string>, lastName: Option<string>): (r: string)
    ensures r != ""
    ensures Truthy(companyName) ==> r == companyName.value
    ensures !Truthy(companyName) && AllSpace(OrEmpty(firstName) + " " + OrEmpty(lastName)) ==> r == "Client inconnu"
    ensures !Truthy(companyName) && !AllSpace(OrEmpty(firstName) + " " + OrEmpty(lastName)) ==>
      |r| <= |OrEmpty(firstName)| + 1 + |OrEmpty(lastName)| && !IsSpace(r[0]) && !IsSpace(r[|r| - 1])
    // the name branch is the trimmed "first last"
    ensures !Truthy(companyName) && !AllSpace(OrEmpty(firstName) + " " + OrEmpty(lastName)) ==>
      r == Trim(OrEmpty(firstName) + " " + OrEmpty(lastName))
  {
    if Truthy(companyName) then companyName.value
    else
      var full := Trim(OrEmpty(firstName) + " " + OrEmpty(lastName));
      if full != "" then full else "Client inconnu"
  }

  /** A company-less customer with a first and a last name, neither with
      surrounding white space, is listed as "first last". */
  lemma PersonClientName(first: string, last: string)
    requires first != "" && !IsSpace(first[0]) && !IsSpace(first[|first| - 1])
    requires last != "" && !IsSpace(last[0]) && !IsSpace(last[|last| - 1])
    ensures ClientName(None, Some(first), Some(last)) == first + " " + last
  {
    var full := first + " " + last;
    assert full[0] == first[0] && full[|full| - 1] == last[|last| - 1];
    TrimOfTrimmed(full);
  }

  /** The root of a kind's pages. */
  function DocBase(kind: DocKind): string {
    match kind
    case InvoiceDocs => "/dashboard/invoices/"
    case QuoteDocs => "/dashboard/quotes/"
  }

  /** A draft opens in the editor, anything else in the viewer. */
  function DocLink(kind: DocKind, id: string, status: string): (r: string)
    ensures DocBase(kind) <= r && |r| == |DocBase(kind)| + 5 + |id|
    ensures r[|r| - |id|..] == id
  {
    DocBase(kind) + (if status == "DRAFT" then "edit/" else "view/") + id
  }

  /** Reads a list link back: whether it opens the editor, and the id. */
  function ParseDocLink(kind: DocKind, link: string): (r: Option<(bool, string)>)
    ensures r.Some? ==> DocLink(kind, r.value.1, if r.value.0 then "DRAFT" else "") == link
  {
    var base := DocBase(kind);
    if |link| < |base| + 5 || link[..|base|] != base then None
    else
      var action := link[|base|..|base| + 5];
      var id := link[|base| + 5..];
      if action == "edit/" then
        assert link == base + action + id;
        Some((true, id))
      else if action == "view/" then
        assert link == base + action + id;
        Some((false, id))
      else None
  }

  /** A link names its document and whether it is a draft; so distinct
      documents get distinct links. */
  lemma LinkRoundTrip(kind: DocKind, id: string, status: string)
    ensures ParseDocLink(kind, DocLink(kind, id, status)) == Some((status == "DRAFT", id))
  {
    var base := DocBase(kind);
    var link := DocLink(kind, id, status);
    var action := if status == "DRAFT" then "edit/" else "view/";
    assert link == base + action + id;
    assert link[..|base|] == base;
    assert link[|base|..|base| + 5] == action;
    assert link[|base| + 5..] == id;
  }

  /** The statuses of an invoice: only a draft opens in the editor. */
  lemma InvoiceDraftLink(id: string, s: Status)
    ensures ParseDocLink(InvoiceDocs, DocLink(InvoiceDocs, id, StatusName(s))) == Some((s == DRAFT, id))
  {
    LinkRoundTrip(InvoiceDocs, id, StatusName(s));
  }

  /** One rendered line of a list. */
  datatype ListRow = ListRow(href: string, number: string, clientName: string, separatorAfter: bool)

  /** What a list renders: an empty-state message, or the rows. */
  datatype ListView = EmptyState(message: string) | Rows(rows: seq<ListRow>)

  function EmptyMessage(kind: DocKind): string {
    match kind
    case InvoiceDocs => "Aucune facture disponible"
    case QuoteDocs => "Aucun devis disponible"
  }

  function Row(kind: DocKind, e: ListEntry, last: bool): ListRow {
    ListRow(DocLink(kind, e.id, e.status), e.number, ClientName(e.companyName, e.firstName, e.lastName), !last)
  }

  /** `InvoiceList` and `QuoteList`: one row per document, in order, each
      followed by a separator except the last. */
  function RenderList(kind: DocKind, entries: seq<ListEntry>): (v: ListView)
    ensures v.EmptyState? <==> entries == []
    ensures v.EmptyState? ==> v.message == EmptyMessage(kind)
    ensures v.Rows? ==>
      && |v.rows| == |entries|
      && forall k :: 0 <= k < |entries| ==>
           && ParseDocLink(kind, v.rows[k].href) == Some((entries[k].status == "DRAFT", entries[k].id))
           && v.rows[k].number == entries[k].number
           && v.rows[k].clientName == ClientName(entries[k].companyName, entries[k].firstName, entries[k].lastName)
           && (v.rows[k].separatorAfter <==> k < |entries| - 1)
  {
    if entries == [] then EmptyState(EmptyMessage(kind))
    else
      var rows := seq(|entries|, k requires 0 <= k < |entries| => Row(kind, entries[k], k == |entries| - 1));
      assert forall k :: 0 <= k < |entries| ==>
        ParseDocLink(kind, rows[k].href) == Some((entries[k].status == "DRAFT", entries[k].id)) by {
        forall k | 0 <= k < |entries|
          ensures ParseDocLink(kind, rows[k].href) == Some((entries[k].status == "DRAFT", entries[k].id))
        {
          LinkRoundTrip(kind, entries[k].id, entries[k].status);
        }
      }
      Rows(rows)
  }

  /** The number of separators in a list of rows. */
  function Separators(rows: seq<ListRow>): nat {
    if rows == [] then 0
    else (if rows[0].separatorAfter then 1 else 0) + Separators(rows[1..])
  }

  /** A list of n documents shows n - 1 separators. */
  lemma SeparatorCount(kind: DocKind, entries: seq<ListEntry>)
    requires entries != []
    ensures Separators(RenderList(kind, entries).rows) == |entries| - 1
  {
    var rows := RenderList(kind, entries).rows;
    SeparatorsExceptLast(rows);
  }

  /** Rows whose every entry but the last carries a separator hold one
      fewer separators than rows. */
  lemma {:induction false} SeparatorsExceptLast(rows: seq<ListRow>)
    requires rows != []
    requires forall k :: 0 <= k < |rows| ==> (rows[k].separatorAfter <==> k < |rows| - 1)
    ensures Separators(rows) == |rows| - 1
    decreases |rows|
  {
    if |rows| > 1 {
      assert forall k :: 0 <= k < |rows| - 1 ==> rows[1..][k] == rows[k + 1];
      SeparatorsExceptLast(rows[1..]);
    }
  }
}
