# QBD-Invoice import, modelled in Dafny

The program imports invoices into a local accounting application. It reads
invoice headers and invoice lines, builds one "add invoice" request per header
with that header's lines attached, submits the whole batch in one call, pairs
each response with its invoice by position, reports every outcome and writes
an error log when something failed. Around all of this it opens a connection,
begins a session, and on every exit path ends the session and closes the
connection.

This project models `PushInvoicesToQuickBooks` in `Program.cs` and the two
record shapes it consumes. The modules are:

- `Wrappers`: `Option`, read as "field set to this value" or "field not set".
- `Text`: the .NET string operations the import relies on.
  - `IsBlank` is `string.IsNullOrWhiteSpace`, using the white-space set of `char.IsWhiteSpace`.
  - `EqualsIgnoreCase` is the `OrdinalIgnoreCase` comparison.
  - `IntToString` is the decimal rendering of the status code, proved to round-trip through `ParseInt`.
- `Positions`: `Selected(mask)`, the ascending list of marked positions. The
  model uses it to say that a filter keeps "exactly these elements, in their
  original order".
- `InvoiceRequests`: the records, the per-line field mapping (`LineAddOf`,
  specified; `MapLine`, the field-by-field method), and the nested loops that
  build the batch (`BuildRequests`).
- `Reporting`: responses, reports, the failure line, and the loop that
  correlates responses with the recorded invoice ids (`CorrelateResponses`).
- `Session`: a `SessionManager` class that records the calls made on it. It
  also holds the whole import as a method, `PushInvoicesToQuickBooks`, and its
  specification `Push` / `SessionCalls`.

The vendor API is reduced to what the import needs:
- whether opening the connection succeeds;
- whether beginning the session succeeds;
- a function from the submitted batch to its responses, or to `None` when
  submission throws.

Amounts are `real`. A `DateTime` is an opaque `Date`.

Behaviour worth knowing:
- If two headers share an invoice id, each of their requests gets the same
  lines, so those lines are submitted twice. The model does the same.
- If the vendor returns more responses than requests were built, the source
  indexes past the end of its invoice-id list and throws. The responses before
  that point have already been reported. The error log is then not written,
  even when it holds failures. The model returns the fault
  `ResponseWithoutInvoice` in that case.

## Model

| member | source | states |
|---|---|---|
| `InvoiceRequests.LineAddOf` | Program.cs:116-143 | Every line item carries the line's item reference. The description is sent iff it is not blank, and then verbatim. The percent item never sends a quantity; other items send exactly the quantity they have. A present rate goes to the percentage field for the percent item and to the ordinary rate field otherwise. An absent rate sets neither field. |
| `InvoiceRequests.MapLine` | Program.cs:111-146 | Setting the fields one at a time yields exactly the specified line item. |
| `InvoiceRequests.PercentItemSpellings` | Program.cs:122 | The item is treated as the percent item exactly for the eight letter-case spellings of "OOP". |
| `InvoiceRequests.AmountNeverSent` | Program.cs:116-145 | Two lines that differ only in amount (and line number) become the same line item. |
| `InvoiceRequests.RateFieldsExclusive` | Program.cs:131-143 | At most one rate field is set, and one is set iff the line has a rate. |
| `InvoiceRequests.LinesFor` | Program.cs:109 | The lines selected for an invoice id all carry that id, come from the line list, and are no more than the line list. |
| `InvoiceRequests.LinesForExact` | Program.cs:109 | The k-th line attached for an invoice id is the line at the k-th position carrying that id. |
| `InvoiceRequests.RequestLineItems` | Program.cs:109-146 | A request's line items correspond one-to-one to the positions of the lines carrying the header's id. They are in ascending order, each is the mapped line, and no matching line is missed. |
| `InvoiceRequests.OrphanLineNeverAttached` | Program.cs:100-114 | A line whose id matches no header is attached to no request. |
| `InvoiceRequests.WidgetAndDiscountExample` | Program.cs:109-143 | A worked example: an ordinary line with quantity and rate and a blank description, a line of another invoice, and a percent discount line. |
| `InvoiceRequests.BuildRequests` | Program.cs:98-147 | There is one request per header, in header order, and `invoiceOrder[i]` is header i's id. Request i carries header i's customer, date and reference number, plus that header's mapped lines in line order. |
| `Text.IsBlank` | Program.cs:117 | The empty description is blank, and a description holding any visible ASCII character is not. |
| `Text.IntToStringRoundTrip` | Program.cs:168 | The rendered status code parses back to the code. |
| `Text.IntToStringInjective` | Program.cs:168 | Distinct status codes render differently. |
| `Reporting.ReportFor` | Program.cs:155-171 | A report names the invoice id recorded at the response's position. Status 0 is a success report; any other status is a failure report carrying that code and message. |
| `Reporting.FailureMessage` | Program.cs:166-168 | The failure line starts with the failure mark and the invoice id, and ends with the vendor's message. |
| `Reporting.FailureMessageInjective` | Program.cs:166-168 | For one invoice id, the failure line determines the status code and the vendor message. |
| `Reporting.Reports` | Program.cs:152-171 | There is one report per response that has a recorded id, in response order. Report i names the i-th recorded id and succeeds iff status i is 0; a failure carries that response's code and message. |
| `Reporting.ErrorLines` | Program.cs:164-171 | The error lines are no more than the reports, and there are none when no report failed. |
| `Reporting.ErrorLinesExact` | Program.cs:164-171 | The error lines are one line per failed report, in report order. |
| `Reporting.ErrorLogExactlyFailures` | Program.cs:150-172 | When every response has a recorded id, the error log is one line per non-zero status, in response order. Each line names the id, the code and the message at that position. |
| `Reporting.ErrorLogEmptyIff` | Program.cs:174 | The error log is empty iff every response has status 0. |
| `Reporting.CorrelateResponses` | Program.cs:150-172 | The loop pairs response i with `invoiceOrder[i]`. It faults iff there are more responses than recorded ids, and then stops after the reports of the responses that have an id. The log is the failure lines of the reports. |
| `Session.SessionManager.constructor` | Program.cs:89 | A new session manager is neither connected nor in a session and has had no calls. |
| `Session.SessionManager.Open` | Program.cs:92 | Records the open call; the manager is connected iff the open succeeds. |
| `Session.SessionManager.Begin` | Program.cs:93 | Records the begin call; the manager is in a session iff it succeeds. |
| `Session.SessionManager.Submit` | Program.cs:149 | Records the submit call and returns the vendor's answer to exactly the batch given. |
| `Session.SessionManager.End` | Program.cs:182 | Records the end call; the manager leaves the session. |
| `Session.SessionManager.Close` | Program.cs:183 | Records the close call; the manager is disconnected. |
| `Session.SessionCalls` | Program.cs:89-184 | Every run's calls start with opening the connection and end with ending the session and then closing the connection. |
| `Session.Push` | Program.cs:85-185 | The batch is built and submitted iff the connection and the session were established, and it is the built requests. The run completes iff the batch is answered with no more responses than requests. An error log is written only by a completed run and is never empty. Nothing is reported unless the batch was answered. |
| `Session.SubmitAndReport` | Program.cs:95-178 | Once a session has begun, building, submitting and reporting produce the specified result. The only call made on the manager is the submission, and its connection and session state are unchanged. |
| `Session.PushInvoicesToQuickBooks` | Program.cs:85-185 | The whole import produces the specified result and call sequence, and leaves the manager disconnected and out of session on every path. |
| `Session.TeardownOnEveryPath` | Program.cs:89-184 | Every run starts by opening, ends with ending the session and then closing the connection, each exactly once. The batch is submitted iff both open and begin succeed. |
| `Session.PushCorrelatesByPosition` | Program.cs:149-172 | Once a session is established and the batch is answered, the submitted batch is the built requests. The run completes iff there are no more responses than headers. There is one report for each response that has a header at its position, and report i is response i against header i's invoice id. |
| `Session.PushLogWrittenIff` | Program.cs:149-178 | The error log is written iff the batch was answered, every response has a recorded id, and some response has a non-zero status. When written, it holds the failure lines of the reports, in response order. |

## Left out

- Reading the two CSV files (`ReadInvoiceHeaders`, `ReadInvoiceLines`) is done by a CSV library. The model takes the parsed sequences as inputs, with an empty numeric cell already decoded to `None`.
- The vendor object graph (message set, request and line-add objects, `SetValue` chains) is replaced by plain records. The request is appended to the message set before its fields are set. Nothing reads the message set before submission, so the model builds each request and then appends it.
- The batch's continue-on-error setting is not modelled. Its effect, one response per request, belongs to the vendor; the model accepts whatever responses the vendor function returns.
- The `decimal` to `double` conversions are not modelled; amounts stay exact `real` values.
- `DateTime` values are carried as an opaque `Date` and never inspected.
- Console output, colours and the key press in `Main` are not modelled. Writing the log file is modelled only as whether it is written and which lines it holds.
- The transaction id of a created invoice is a vendor cast. `Created` reports only the invoice id.
- Exceptions from `SetValue`, `CreateMsgSetRequest`, `EndSession` and `CloseConnection` are vendor behaviour and are not modelled. Only a failing open, a failing begin and a failing submission are. `EndSession` is therefore modelled as always returning, so `CloseConnection` always follows it.
- `EqualsIgnoreCase` upper-cases ASCII letters only. No other character upper-cases to 'O' or 'P', so the test against "OOP" is exact.
- `IntToString` renders a negative status code with an ASCII '-', as the invariant culture does. The source formats the code with the current culture, whose negative sign may differ.
- A `null` description is not modelled. The record's description defaults to the empty string, which counts as blank.
