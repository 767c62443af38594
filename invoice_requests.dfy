/** Request building: the two nested loops of `PushInvoicesToQuickBooks` that
    turn the parsed invoice headers and lines into one "add invoice" request
    per header, and the per-line field mapping inside them. The vendor request
    objects are replaced by plain records whose optional fields read "set to
    this value" (`Some`) or "never set" (`None`). */
module InvoiceRequests {

  import opened Wrappers
  import opened Text
  import opened Positions

  /** A `DateTime`, carried through unchanged and never inspected. */
  datatype Date = Date(ticks: int)

  /** One row of the header file. */
  datatype InvoiceHeader = InvoiceHeader(
    invoiceId: string,
    customerRef: string,
    txnDate: Date,
    refNumber: string)

  /** One row of the line file; an empty numeric cell has been decoded to `None`. */
  datatype InvoiceLine = InvoiceLine(
    invoiceId: string,
    lineNum: int,
    itemRef: string,
    desc: string,
    quantity: Option<real>,
    rate: Option<real>,
    amount: Option<real>)

  /** A line item of an "add invoice" request. */
  datatype LineAdd = LineAdd(
    itemRef: string,
    desc: Option<string>,
    quantity: Option<real>,
    rate: Option<real>,
    ratePercent: Option<real>)

  /** An "add invoice" request. */
  datatype InvoiceAdd = InvoiceAdd(
    customerRef: string,
    txnDate: Date,
    refNumber: string,
    lineItems: seq<LineAdd>)

  /** The item whose rate is a percentage ("5" meaning 5 %). */
  const PercentItem := "OOP"

  predicate IsPercentItem(itemRef: string)
  {
    EqualsIgnoreCase(itemRef, PercentItem)
  }

  /** The sentinel is recognised in exactly its eight letter-case spellings. */
  lemma PercentItemSpellings(itemRef: string)
    ensures IsPercentItem(itemRef) <==>
              itemRef in {"OOP", "OOp", "OoP", "Oop", "oOP", "oOp", "ooP", "oop"}
  {
    if IsPercentItem(itemRef) {
      var a, b, c := itemRef[0], itemRef[1], itemRef[2];
      assert UpperAscii(a) == 'O' && UpperAscii(b) == 'O' && UpperAscii(c) == 'P';
      assert itemRef == [a, b, c];
      if a == 'O' {
        if b == 'O' { if c == 'P' { assert itemRef == "OOP"; } else { assert itemRef == "OOp"; } }
        else { if c == 'P' { assert itemRef == "OoP"; } else { assert itemRef == "Oop"; } }
      } else {
        if b == 'O' { if c == 'P' { assert itemRef == "oOP"; } else { assert itemRef == "oOp"; } }
        else { if c == 'P' { assert itemRef == "ooP"; } else { assert itemRef == "oop"; } }
      }
    }
  }

  /** The line item a parsed line becomes. */
  function LineAddOf(ln: InvoiceLine): (la: LineAdd)
    // the item reference is always sent
    ensures la.itemRef == ln.itemRef
    // the description is sent exactly when it is not blank, and then verbatim
    ensures la.desc.Some? <==> !IsBlank(ln.desc)
    ensures la.desc.Some? ==> la.desc.value == ln.desc
    // the percent item never sends a quantity; any other item sends exactly the one it has
    ensures IsPercentItem(ln.itemRef) ==> la.quantity == None
    ensures !IsPercentItem(ln.itemRef) ==> la.quantity == ln.quantity
    // a rate is sent exactly when present, in exactly one of the two rate fields
    ensures ln.rate == None ==> la.rate == None && la.ratePercent == None
    ensures ln.rate.Some? && IsPercentItem(ln.itemRef) ==> la.ratePercent == ln.rate && la.rate == None
    ensures ln.rate.Some? && !IsPercentItem(ln.itemRef) ==> la.rate == ln.rate && la.ratePercent == None
  {
    var percent := IsPercentItem(ln.itemRef);
    LineAdd(
      ln.itemRef,
      if IsBlank(ln.desc) then None else Some(ln.desc),
      if percent then None else ln.quantity,
      if percent then None else ln.rate,
      if percent then ln.rate else None)
  }

  /** The line number and the amount are never sent: two lines that differ
      only in them become the same line item. */
  lemma AmountNeverSent(a: InvoiceLine, b: InvoiceLine)
    requires a.(amount := b.amount, lineNum := b.lineNum) == b
    ensures LineAddOf(a) == LineAddOf(b)
  {
  }

  /** At most one rate field is ever set. */
  lemma RateFieldsExclusive(ln: InvoiceLine)
    ensures !(LineAddOf(ln).rate.Some? && LineAddOf(ln).ratePercent.Some?)
    ensures LineAddOf(ln).rate.Some? || LineAddOf(ln).ratePercent.Some? <==> ln.rate.Some?
  {
  }

  /** Fills a new line item field by field, as the import sets its fields one at a time. */
  method MapLine(ln: InvoiceLine) returns (la: LineAdd)
    ensures la == LineAddOf(ln)
  {
    la := LineAdd(ln.itemRef, None, None, None, None);
    if !IsBlank(ln.desc) {
      la := la.(desc := Some(ln.desc));
    }
    var isOop := IsPercentItem(ln.itemRef);
    if !isOop && ln.quantity.Some? {
      la := la.(quantity := Some(ln.quantity.value));
    }
    if ln.rate.Some? {
      if isOop {
        la := la.(ratePercent := Some(ln.rate.value));
      } else {
        la := la.(rate := Some(ln.rate.value));
      }
    }
  }

  /** The lines carrying invoice `id`, in line-list order. */
  function LinesFor(lines: seq<InvoiceLine>, id: string): (matching: seq<InvoiceLine>)
    ensures |matching| <= |lines|
    ensures forall k :: 0 <= k < |matching| ==> matching[k].invoiceId == id && matching[k] in lines
  {
    if lines == [] then []
    else
      var last := lines[|lines| - 1];
      LinesFor(lines[..|lines| - 1], id) + (if last.invoiceId == id then [last] else [])
  }

  /** Which positions of `lines` carry invoice `id`. */
  function MatchMask(lines: seq<InvoiceLine>, id: string): seq<bool>
  {
    seq(|lines|, i requires 0 <= i < |lines| => lines[i].invoiceId == id)
  }

  /** `LinesFor(lines, id)` is exactly the lines whose id is `id`, in their original
      order: its k-th element is the line at the k-th matching position. */
  lemma {:induction false} LinesForExact(lines: seq<InvoiceLine>, id: string)
    ensures |LinesFor(lines, id)| == |Selected(MatchMask(lines, id))|
    ensures forall k :: 0 <= k < |LinesFor(lines, id)| ==> Selected(MatchMask(lines, id))[k] < |lines|
    ensures forall k :: 0 <= k < |LinesFor(lines, id)| ==>
              LinesFor(lines, id)[k] == lines[Selected(MatchMask(lines, id))[k]]
  {
    if lines != [] {
      var init := lines[..|lines| - 1];
      LinesForExact(init, id);
      SelectedExact(MatchMask(init, id));
      assert MatchMask(lines, id)[..|lines| - 1] == MatchMask(init, id);
    }
  }

  function MapLines(ls: seq<InvoiceLine>): seq<LineAdd>
  {
    seq(|ls|, k requires 0 <= k < |ls| => LineAddOf(ls[k]))
  }

  /** The request built for one header. */
  function RequestFor(hdr: InvoiceHeader, lines: seq<InvoiceLine>): InvoiceAdd
  {
    InvoiceAdd(hdr.customerRef, hdr.txnDate, hdr.refNumber, MapLines(LinesFor(lines, hdr.invoiceId)))
  }

  /** The whole batch: one request per header, in header order. */
  function Requests(headers: seq<InvoiceHeader>, lines: seq<InvoiceLine>): seq<InvoiceAdd>
  {
    seq(|headers|, i requires 0 <= i < |headers| => RequestFor(headers[i], lines))
  }

  /** The invoice ids in request order. */
  function InvoiceOrder(headers: seq<InvoiceHeader>): seq<string>
  {
    seq(|headers|, i requires 0 <= i < |headers| => headers[i].invoiceId)
  }

  /** The line items of a header's request are the mapped lines carrying that
      header's id, in line-list order, and only those. */
  lemma RequestLineItems(hdr: InvoiceHeader, lines: seq<InvoiceLine>)
    ensures var items := RequestFor(hdr, lines).lineItems;
            var idx := Selected(MatchMask(lines, hdr.invoiceId));
            |items| == |idx| && Ascending(idx) &&
            (forall k :: 0 <= k < |idx| ==>
               idx[k] < |lines| && lines[idx[k]].invoiceId == hdr.invoiceId &&
               items[k] == LineAddOf(lines[idx[k]])) &&
            (forall j :: 0 <= j < |lines| && lines[j].invoiceId == hdr.invoiceId ==> j in idx)
  {
    LinesForExact(lines, hdr.invoiceId);
    SelectedExact(MatchMask(lines, hdr.invoiceId));
  }

  /** A line whose id matches no header is attached to no request. */
  lemma OrphanLineNeverAttached(headers: seq<InvoiceHeader>, lines: seq<InvoiceLine>, j: nat)
    requires j < |lines|
    requires forall i :: 0 <= i < |headers| ==> headers[i].invoiceId != lines[j].invoiceId
    ensures forall i :: 0 <= i < |headers| ==> j !in Selected(MatchMask(lines, headers[i].invoiceId))
  {
    forall i | 0 <= i < |headers|
      ensures j !in Selected(MatchMask(lines, headers[i].invoiceId))
    {
      SelectedExact(MatchMask(lines, headers[i].invoiceId));
    }
  }

  /** A widget line and a percent discount line under one header: the widget
      sends its quantity and its rate as an ordinary rate and no description;
      the discount sends no quantity, its rate as a percentage and its description. */
  lemma WidgetAndDiscountExample(date: Date)
    ensures var hdr := InvoiceHeader("INV-1", "CUST-A", date, "REF100");
            var widget := InvoiceLine("INV-1", 1, "WIDGET", "", Some(3.0), Some(10.0), None);
            var discount := InvoiceLine("INV-1", 2, "OOP", "discount", None, Some(5.0), None);
            var other := InvoiceLine("INV-2", 1, "WIDGET", "x", Some(1.0), None, None);
            RequestFor(hdr, [widget, other, discount]) ==
              InvoiceAdd("CUST-A", date, "REF100",
                [LineAdd("WIDGET", None, Some(3.0), Some(10.0), None),
                 LineAdd("OOP", Some("discount"), None, None, Some(5.0))])
  {
    var widget := InvoiceLine("INV-1", 1, "WIDGET", "", Some(3.0), Some(10.0), None);
    var discount := InvoiceLine("INV-1", 2, "OOP", "discount", None, Some(5.0), None);
    var other := InvoiceLine("INV-2", 1, "WIDGET", "x", Some(1.0), None, None);
    var ls := [widget, other, discount];
    assert ls[..2][..1] == [widget] && ls[..2] == [widget, other] && [widget][..0] == [];
    assert "INV-2" != "INV-1" by { assert "INV-2"[4] != "INV-1"[4]; }
    assert LinesFor([widget], "INV-1") == [widget];
    assert LinesFor([widget, other], "INV-1") == [widget];
    assert LinesFor(ls, "INV-1") == [widget, discount];
    assert !IsPercentItem("WIDGET") && IsPercentItem("OOP");
    assert !IsBlank("discount") by { assert !IsWhiteSpace("discount"[0]); }
  }

  /** The nested loops of the import: one request per header, appended in
      header order together with the header's id, each holding the header's
      lines in line-list order. */
  method BuildRequests(headers: seq<InvoiceHeader>, lines: seq<InvoiceLine>)
    returns (requests: seq<InvoiceAdd>, invoiceOrder: seq<string>)
    ensures |requests| == |headers| && |invoiceOrder| == |headers|
    ensures forall i :: 0 <= i < |headers| ==>
              invoiceOrder[i] == headers[i].invoiceId && requests[i] == RequestFor(headers[i], lines)
  {
    requests, invoiceOrder := [], [];
    for h := 0 to |headers|
      invariant |requests| == h && |invoiceOrder| == h
      invariant forall i :: 0 <= i < h ==>
                  invoiceOrder[i] == headers[i].invoiceId && requests[i] == RequestFor(headers[i], lines)
    {
      var hdr := headers[h];
      invoiceOrder := invoiceOrder + [hdr.invoiceId];
      var items: seq<LineAdd> := [];
      for j := 0 to |lines|
        invariant items == MapLines(LinesFor(lines[..j], hdr.invoiceId))
      {
        assert lines[..j + 1][..j] == lines[..j];
        if lines[j].invoiceId == hdr.invoiceId {
          var la := MapLine(lines[j]);
          items := items + [la];
        }
      }
      assert lines[..|lines|] == lines;
      requests := requests + [InvoiceAdd(hdr.customerRef, hdr.txnDate, hdr.refNumber, items)];
    }
  }
}
