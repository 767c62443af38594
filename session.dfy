/** `PushInvoicesToQuickBooks` as a whole: the session lifecycle around request
    building, submission and reporting. The vendor's session manager is
    replaced by a class that records the calls made on it; what the vendor
    answers is a parameter. */
module Session {

  import opened Wrappers
  import opened InvoiceRequests
  import opened Reporting

  /** The session-manager calls the import makes. */
  datatype Call = OpenConnection | BeginSession | DoRequests | EndSession | CloseConnection

  /** How the vendor side behaves in one run: whether opening the connection
      and beginning the session succeed, and what submitting a batch returns
      (`None` when the call throws). */
  datatype Vendor = Vendor(
    opens: bool,
    begins: bool,
    answer: seq<InvoiceAdd> -> Option<seq<Response>>)

  /** The exception that leaves the import, if any. */
  datatype Fault =
    | ConnectionRefused
    | SessionRefused
    | SubmitFailed
    | ResponseWithoutInvoice   // a response at a position no request was recorded at

  /** What one run produces. */
  datatype PushResult = PushResult(
    submitted: Option<seq<InvoiceAdd>>,   // the batch handed to the vendor, if submission was reached
    reports: seq<Report>,                 // the per-invoice reports, in response order
    logFile: Option<seq<string>>,         // the lines of the error log, when it is written
    fault: Option<Fault>)

  class SessionManager {
    var calls: seq<Call>
    var connected: bool
    var inSession: bool

    constructor ()
      ensures calls == [] && !connected && !inSession
    {
      calls, connected, inSession := [], false, false;
    }

    method Open(succeeds: bool) returns (ok: bool)
      modifies this
      ensures calls == old(calls) + [OpenConnection]
      ensures ok == succeeds && connected == succeeds && inSession == old(inSession)
    {
      calls := calls + [OpenConnection];
      connected := succeeds;
      ok := succeeds;
    }

    method Begin(succeeds: bool) returns (ok: bool)
      modifies this
      ensures calls == old(calls) + [BeginSession]
      ensures ok == succeeds && inSession == succeeds && connected == old(connected)
    {
      calls := calls + [BeginSession];
      inSession := succeeds;
      ok := succeeds;
    }

    method Submit(batch: seq<InvoiceAdd>, answer: seq<InvoiceAdd> -> Option<seq<Response>>)
      returns (responses: Option<seq<Response>>)
      modifies this
      ensures calls == old(calls) + [DoRequests]
      ensures responses == answer(batch)
      ensures connected == old(connected) && inSession == old(inSession)
    {
      calls := calls + [DoRequests];
      responses := answer(batch);
    }

    method End()
      modifies this
      ensures calls == old(calls) + [EndSession]
      ensures !inSession && connected == old(connected)
    {
      calls := calls + [EndSession];
      inSession := false;
    }

    method Close()
      modifies this
      ensures calls == old(calls) + [CloseConnection]
      ensures !connected && inSession == old(inSession)
    {
      calls := calls + [CloseConnection];
      connected := false;
    }
  }

  /** The calls made on the session manager in one run. */
  function SessionCalls(vendor: Vendor): (c: seq<Call>)
    ensures |c| >= 3 && c[0] == OpenConnection
    ensures c[|c| - 2..] == [EndSession, CloseConnection]
  {
    if !vendor.opens then [OpenConnection, EndSession, CloseConnection]
    else if !vendor.begins then [OpenConnection, BeginSession, EndSession, CloseConnection]
    else [OpenConnection, BeginSession, DoRequests, EndSession, CloseConnection]
  }

  /** What one run produces. */
  function Push(headers: seq<InvoiceHeader>, lines: seq<InvoiceLine>, vendor: Vendor): (r: PushResult)
    // the batch is built and submitted exactly when a session was established
    ensures r.submitted.Some? <==> vendor.opens && vendor.begins
    ensures r.submitted.Some? ==> r.submitted.value == Requests(headers, lines)
    // the run completes exactly when the batch is answered with no more responses than requests
    ensures r.fault.None? <==>
              vendor.opens && vendor.begins && vendor.answer(Requests(headers, lines)).Some? &&
              |vendor.answer(Requests(headers, lines)).value| <= |headers|
    // an error log is written only by a completed run, and never empty
    ensures r.logFile.Some? ==> r.fault.None? && r.logFile.value != []
    // nothing is reported unless the batch was answered
    ensures r.reports != [] ==> r.submitted.Some? && vendor.answer(Requests(headers, lines)).Some?
  {
    if !vendor.opens then PushResult(None, [], None, Some(ConnectionRefused))
    else if !vendor.begins then PushResult(None, [], None, Some(SessionRefused))
    else
      var batch := Requests(headers, lines);
      match vendor.answer(batch)
      case None => PushResult(Some(batch), [], None, Some(SubmitFailed))
      case Some(responses) =>
        var order := InvoiceOrder(headers);
        var reports := Reports(responses, order);
        if |responses| > |order| then PushResult(Some(batch), reports, None, Some(ResponseWithoutInvoice))
        else
          var log := ErrorLines(reports);
          PushResult(Some(batch), reports, if log == [] then None else Some(log), None)
  }

  /** The body of the import's `try` block once the session has begun: build
      the batch, submit it, and report the responses. */
  method SubmitAndReport(sessionMgr: SessionManager, headers: seq<InvoiceHeader>,
                         lines: seq<InvoiceLine>, vendor: Vendor)
    returns (result: PushResult)
    requires vendor.opens && vendor.begins
    modifies sessionMgr
    ensures result == Push(headers, lines, vendor)
    ensures sessionMgr.calls == old(sessionMgr.calls) + [DoRequests]
    ensures sessionMgr.connected == old(sessionMgr.connected)
    ensures sessionMgr.inSession == old(sessionMgr.inSession)
  {
    var requests, invoiceOrder := BuildRequests(headers, lines);
    assert requests == Requests(headers, lines) && invoiceOrder == InvoiceOrder(headers);
    var answer := sessionMgr.Submit(requests, vendor.answer);
    if answer.None? {
      result := PushResult(Some(requests), [], None, Some(SubmitFailed));
    } else {
      var reports, errorLog, indexFault := CorrelateResponses(answer.value, invoiceOrder);
      if indexFault {
        result := PushResult(Some(requests), reports, None, Some(ResponseWithoutInvoice));
      } else {
        var logFile := if |errorLog| > 0 then Some(errorLog) else None;
        result := PushResult(Some(requests), reports, logFile, None);
      }
    }
  }

  /** The import: connect, begin a session, build and submit the batch,
      report the responses, and whatever happened in between end the session
      and then close the connection. */
  method PushInvoicesToQuickBooks(headers: seq<InvoiceHeader>, lines: seq<InvoiceLine>, vendor: Vendor)
    returns (result: PushResult, sessionMgr: SessionManager)
    ensures result == Push(headers, lines, vendor)
    ensures sessionMgr.calls == SessionCalls(vendor)
    ensures !sessionMgr.connected && !sessionMgr.inSession
  {
    sessionMgr := new SessionManager();
    var ok := sessionMgr.Open(vendor.opens);
    if !ok {
      result := PushResult(None, [], None, Some(ConnectionRefused));
    } else {
      ok := sessionMgr.Begin(vendor.begins);
      if !ok {
        result := PushResult(None, [], None, Some(SessionRefused));
      } else {
        result := SubmitAndReport(sessionMgr, headers, lines, vendor);
      }
    }
    // the finally block
    sessionMgr.End();
    sessionMgr.Close();
  }

  /** Teardown happens on every path: the run ends with the session being
      ended and then the connection closed, each exactly once, and the batch
      is submitted only inside a session. */
  lemma TeardownOnEveryPath(vendor: Vendor)
    ensures var c := SessionCalls(vendor);
            |c| >= 3 && c[0] == OpenConnection &&
            c[|c| - 2..] == [EndSession, CloseConnection] &&
            multiset(c)[EndSession] == 1 && multiset(c)[CloseConnection] == 1 &&
            (DoRequests in c <==> vendor.opens && vendor.begins)
  {
  }

  /** A completed run reports response `i` against header `i`'s invoice id. */
  lemma PushCorrelatesByPosition(headers: seq<InvoiceHeader>, lines: seq<InvoiceLine>, vendor: Vendor)
    requires vendor.opens && vendor.begins
    requires vendor.answer(Requests(headers, lines)).Some?
    ensures var responses := vendor.answer(Requests(headers, lines)).value;
            var r := Push(headers, lines, vendor);
            r.submitted == Some(Requests(headers, lines)) &&
            (r.fault == None <==> |responses| <= |headers|) &&
            |r.reports| == (if |responses| <= |headers| then |responses| else |headers|) &&
            (forall i :: 0 <= i < |r.reports| ==>
               i < |headers| && r.reports[i] == ReportFor(responses[i], headers[i].invoiceId))
  {
  }

  /** The error log is written exactly when the batch was answered, every
      response has a recorded id, and at least one response failed; it then
      holds one line per failed response, in response order. */
  lemma PushLogWrittenIff(headers: seq<InvoiceHeader>, lines: seq<InvoiceLine>, vendor: Vendor)
    ensures var r := Push(headers, lines, vendor);
            var answer := vendor.answer(Requests(headers, lines));
            r.logFile.Some? <==>
              vendor.opens && vendor.begins && answer.Some? && |answer.value| <= |headers| &&
              exists i :: 0 <= i < |answer.value| && answer.value[i].statusCode != 0
    ensures var r := Push(headers, lines, vendor);
            var answer := vendor.answer(Requests(headers, lines));
            r.logFile.Some? ==> r.logFile.value == ErrorLines(Reports(answer.value, InvoiceOrder(headers)))
  {
    if vendor.opens && vendor.begins && vendor.answer(Requests(headers, lines)).Some? {
      var responses := vendor.answer(Requests(headers, lines)).value;
      if |responses| <= |headers| {
        ErrorLogEmptyIff(responses, InvoiceOrder(headers));
      }
    }
  }
}
