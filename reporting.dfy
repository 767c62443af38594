/** Result correlation and reporting: the loop that pairs the i-th response
    with the i-th recorded invoice id, reports each outcome and collects the
    failure lines that make up the error log. */
module Reporting {

  import opened Text
  import opened Positions

  /** A response of the batch: the status code (0 is success) and the vendor's message. */
  datatype Response = Response(statusCode: int, statusMessage: string)

  /** What the import reports for one invoice. The transaction id of a created
      invoice is a vendor value and is not carried. */
  datatype Report =
    | Created(invoiceId: string)
    | Failed(invoiceId: string, code: int, message: string)

  /** The report for a response paired with the invoice id recorded at its position. */
  function ReportFor(resp: Response, invoiceId: string): (r: Report)
    ensures r.invoiceId == invoiceId
    ensures r.Created? <==> resp.statusCode == 0
    ensures r.Failed? ==> r.code == resp.statusCode && r.message == resp.statusMessage
  {
    if resp.statusCode == 0 then Created(invoiceId)
    else Failed(invoiceId, resp.statusCode, resp.statusMessage)
  }

  /** The failure line starts with the invoice id and the status code and
      ends with the vendor's message, the two joined by an en dash. */
  const FailureMark := "\U{2718} Invoice "
  const CodeSeparator := " \U{2013} "

  function FailureHead(invoiceId: string): string
  {
    FailureMark + invoiceId + " failed: " + "Code="
  }

  /** The failure line written to the console and to the error log. */
  function FailureMessage(invoiceId: string, code: int, message: string): (line: string)
    // names the invoice first and ends with the vendor's message
    ensures |line| >= |FailureMark| + |invoiceId| &&
            line[..|FailureMark| + |invoiceId|] == FailureMark + invoiceId
    ensures |line| >= |message| && line[|line| - |message|..] == message
  {
    FailureHead(invoiceId) + (IntToString(code) + (CodeSeparator + message))
  }

  /** Length of the longest prefix of `t` without a space. */
  function SpaceFreePrefix(t: string): nat
  {
    if t == [] || t[0] == ' ' then 0 else 1 + SpaceFreePrefix(t[1..])
  }

  lemma {:induction false} SpaceFreePrefixOf(s: string, rest: string)
    requires forall i :: 0 <= i < |s| ==> s[i] != ' '
    requires |rest| > 0 && rest[0] == ' '
    ensures SpaceFreePrefix(s + rest) == |s|
  {
    if s == [] {
      assert s + rest == rest;
    } else {
      assert (s + rest)[1..] == s[1..] + rest;
      SpaceFreePrefixOf(s[1..], rest);
    }
  }

  /** A space-free word followed by a space-led rest splits back into the two. */
  lemma SplitAtSpace(s1: string, r1: string, s2: string, r2: string)
    requires forall i :: 0 <= i < |s1| ==> s1[i] != ' '
    requires forall i :: 0 <= i < |s2| ==> s2[i] != ' '
    requires |r1| > 0 && r1[0] == ' ' && |r2| > 0 && r2[0] == ' '
    requires s1 + r1 == s2 + r2
    ensures s1 == s2 && r1 == r2
  {
    SpaceFreePrefixOf(s1, r1);
    SpaceFreePrefixOf(s2, r2);
    assert s1 == (s1 + r1)[..|s1|] && s2 == (s2 + r2)[..|s2|];
    assert r1 == (s1 + r1)[|s1|..] && r2 == (s2 + r2)[|s2|..];
  }

  lemma CancelPrefix(p: string, a: string, b: string)
    requires p + a == p + b
    ensures a == b
  {
    assert a == (p + a)[|p|..] && b == (p + b)[|p|..];
  }

  /** For a given invoice id the failure line determines the code and the
      vendor message it was built from. */
  lemma FailureMessageInjective(invoiceId: string, c1: int, m1: string, c2: int, m2: string)
    requires FailureMessage(invoiceId, c1, m1) == FailureMessage(invoiceId, c2, m2)
    ensures c1 == c2 && m1 == m2
  {
    var s1, s2 := IntToString(c1), IntToString(c2);
    CancelPrefix(FailureHead(invoiceId), s1 + (CodeSeparator + m1), s2 + (CodeSeparator + m2));
    SplitAtSpace(s1, CodeSeparator + m1, s2, CodeSeparator + m2);
    IntToStringInjective(c1, c2);
    CancelPrefix(CodeSeparator, m1, m2);
  }

  /** The reports for the responses that have an invoice id recorded at their position. */
  function Reports(responses: seq<Response>, invoiceOrder: seq<string>): (reports: seq<Report>)
    // one report per response that has a recorded id, in response order
    ensures |reports| == (if |responses| <= |invoiceOrder| then |responses| else |invoiceOrder|)
    // report i names the i-th recorded id and succeeds exactly when status i is 0
    ensures forall i :: 0 <= i < |reports| ==>
              reports[i].invoiceId == invoiceOrder[i] &&
              (reports[i].Created? <==> responses[i].statusCode == 0) &&
              (reports[i].Failed? ==> reports[i].code == responses[i].statusCode &&
                                      reports[i].message == responses[i].statusMessage)
  {
    var n := if |responses| <= |invoiceOrder| then |responses| else |invoiceOrder|;
    seq(n, i requires 0 <= i < n => ReportFor(responses[i], invoiceOrder[i]))
  }

  function LogLine(r: Report): string
    requires r.Failed?
  {
    FailureMessage(r.invoiceId, r.code, r.message)
  }

  /** The failure lines of a report sequence, in report order. */
  function ErrorLines(reports: seq<Report>): (log: seq<string>)
    ensures |log| <= |reports|
    // no failed report, no error line
    ensures (forall i :: 0 <= i < |reports| ==> reports[i].Created?) ==> log == []
  {
    if reports == [] then []
    else
      var last := reports[|reports| - 1];
      ErrorLines(reports[..|reports| - 1]) + (if last.Failed? then [LogLine(last)] else [])
  }

  function FailedMask(reports: seq<Report>): seq<bool>
  {
    seq(|reports|, i requires 0 <= i < |reports| => reports[i].Failed?)
  }

  /** The error lines are exactly one line per failed report, in report order. */
  lemma {:induction false} ErrorLinesExact(reports: seq<Report>)
    ensures |ErrorLines(reports)| == |Selected(FailedMask(reports))|
    ensures forall k :: 0 <= k < |ErrorLines(reports)| ==>
              var i := Selected(FailedMask(reports))[k];
              i < |reports| && reports[i].Failed? && ErrorLines(reports)[k] == LogLine(reports[i])
  {
    if reports != [] {
      var n := |reports|;
      var init, last := reports[..n - 1], reports[n - 1];
      ErrorLinesExact(init);
      SelectedExact(FailedMask(init));
      assert FailedMask(reports)[..n - 1] == FailedMask(init);
      var tail := if last.Failed? then [LogLine(last)] else [];
      assert ErrorLines(reports) == ErrorLines(init) + tail;
      assert Selected(FailedMask(reports)) ==
             Selected(FailedMask(init)) + (if last.Failed? then [n - 1] else []);
      forall k | 0 <= k < |ErrorLines(init)|
        ensures Selected(FailedMask(reports))[k] == Selected(FailedMask(init))[k]
        ensures ErrorLines(reports)[k] == ErrorLines(init)[k]
        ensures reports[Selected(FailedMask(init))[k]] == init[Selected(FailedMask(init))[k]]
      {
      }
    }
  }

  /** Which responses carry a non-zero status. */
  function StatusMask(responses: seq<Response>): seq<bool>
  {
    seq(|responses|, i requires 0 <= i < |responses| => responses[i].statusCode != 0)
  }

  /** When every response has its recorded id, the error log holds one line
      per response with a non-zero status, in response order, naming the id
      recorded at that response's position, its code and its message. */
  lemma ErrorLogExactlyFailures(responses: seq<Response>, invoiceOrder: seq<string>)
    requires |responses| <= |invoiceOrder|
    ensures var log := ErrorLines(Reports(responses, invoiceOrder));
            var idx := Selected(StatusMask(responses));
            |log| == |idx| && Ascending(idx) &&
            (forall k :: 0 <= k < |idx| ==>
               idx[k] < |responses| && responses[idx[k]].statusCode != 0 &&
               log[k] == FailureMessage(invoiceOrder[idx[k]], responses[idx[k]].statusCode,
                                        responses[idx[k]].statusMessage)) &&
            (forall i :: 0 <= i < |responses| && responses[i].statusCode != 0 ==> i in idx)
  {
    var reports := Reports(responses, invoiceOrder);
    assert FailedMask(reports) == StatusMask(responses);
    ErrorLinesExact(reports);
    SelectedExact(StatusMask(responses));
  }

  /** The error log is empty exactly when every response succeeded. */
  lemma ErrorLogEmptyIff(responses: seq<Response>, invoiceOrder: seq<string>)
    requires |responses| <= |invoiceOrder|
    ensures ErrorLines(Reports(responses, invoiceOrder)) == [] <==>
              forall i :: 0 <= i < |responses| ==> responses[i].statusCode == 0
  {
    ErrorLogExactlyFailures(responses, invoiceOrder);
    var idx := Selected(StatusMask(responses));
    if idx != [] {
      assert responses[idx[0]].statusCode != 0;
    }
  }

  /** The loop over the responses. Response `i` is reported against
      `invoiceOrder[i]`; a response without a recorded id stops the loop with
      an index fault, after the reports of the responses before it. */
  method CorrelateResponses(responses: seq<Response>, invoiceOrder: seq<string>)
    returns (reports: seq<Report>, errorLog: seq<string>, indexFault: bool)
    ensures indexFault <==> |responses| > |invoiceOrder|
    ensures reports == Reports(responses, invoiceOrder)
    ensures errorLog == ErrorLines(reports)
  {
    reports, errorLog := [], [];
    var i := 0;
    while i < |responses|
      invariant i <= |responses| && i <= |invoiceOrder| && |reports| == i
      invariant forall k :: 0 <= k < i ==> reports[k] == ReportFor(responses[k], invoiceOrder[k])
      invariant errorLog == ErrorLines(reports)
    {
      if i >= |invoiceOrder| {
        indexFault := true;
        return;
      }
      var resp := responses[i];
      var invoiceId := invoiceOrder[i];
      var report: Report;
      if resp.statusCode == 0 {
        report := Created(invoiceId);
      } else {
        var msg := FailureMessage(invoiceId, resp.statusCode, resp.statusMessage);
        report := Failed(invoiceId, resp.statusCode, resp.statusMessage);
        errorLog := errorLog + [msg];
      }
      assert (reports + [report])[..|reports|] == reports;
      reports := reports + [report];
      i := i + 1;
    }
    indexFault := false;
  }
}
