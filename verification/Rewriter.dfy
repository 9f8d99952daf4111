/** Which reports the rewriter accepts, internal/rewriter/ollama.go, and what the
    consumer then publishes. A string is a sequence of Unicode scalar values, so its
    length is the number of runes. */
module Rewriter {
  import opened Results
  import opened Text
  import opened Protocol
  import opened Discipline

  /** The decoded body of a 2xx response. */
  datatype Reply = Reply(response: string, done: bool, doneReason: string)

  datatype Refusal = Incomplete | TokenLimit | EmptyOutput | TooLong

  /** The checks Rewrite makes on a decoded reply, in order. */
  function AcceptReport(reply: Reply, maxOutputChars: int): Result<string, Refusal> {
    if !reply.done then Err(Incomplete)
    else if reply.doneReason == "length" then Err(TokenLimit)
    else
      var text := TrimSpace(reply.response);
      if text == "" then Err(EmptyOutput)
      else if maxOutputChars > 0 && |text| > maxOutputChars then Err(TooLong)
      else Ok(text)
  }

  /** An accepted report is the part of the response between its outermost characters that
      are not white space, it is never empty, and it respects the cap when there is one. */
  lemma AcceptedReport(reply: Reply, maxOutputChars: int) returns (from: nat, to: nat)
    requires AcceptReport(reply, maxOutputChars).Ok?
    ensures reply.done && reply.doneReason != "length"
    ensures from < to <= |reply.response|
    ensures AcceptReport(reply, maxOutputChars).value == reply.response[from..to]
    ensures !IsSpace(reply.response[from]) && !IsSpace(reply.response[to - 1])
    ensures Blank(reply.response[..from]) && Blank(reply.response[to..])
    ensures maxOutputChars > 0 ==> to - from <= maxOutputChars
  {
    from, to := TrimIsSlice(reply.response);
  }

  /** A reply is accepted exactly if it is complete, was not cut off at the token limit, holds
      more than white space, and keeps to the cap if there is one; a refusal names the first
      of these that fails. */
  lemma AcceptedExactlyWhen(reply: Reply, maxOutputChars: int)
    ensures AcceptReport(reply, maxOutputChars).Ok?
       <==> && reply.done && reply.doneReason != "length" && !Blank(reply.response)
            && (maxOutputChars <= 0 || |TrimSpace(reply.response)| <= maxOutputChars)
    ensures match AcceptReport(reply, maxOutputChars)
            case Ok(text) => text == TrimSpace(reply.response)
            case Err(Incomplete) => !reply.done
            case Err(TokenLimit) => reply.done && reply.doneReason == "length"
            case Err(EmptyOutput) => reply.done && reply.doneReason != "length" && Blank(reply.response)
            case Err(TooLong) => reply.done && |TrimSpace(reply.response)| > maxOutputChars > 0
  {
    TrimBlank(reply.response);
  }

  /** Only trimmed text is ever accepted, so the consumer's own trimming of a report is the
      identity and its blank-report branch is dead: it publishes the report as it is. */
  lemma AcceptedReportIsPublished(cfg: Config, summary: string, reply: Reply, maxOutputChars: int)
    requires AcceptReport(reply, maxOutputChars).Ok?
    requires forall s :: cfg.trim(s) == TrimSpace(s)
    ensures var report := AcceptReport(reply, maxOutputChars).value;
            Chosen(cfg, summary, Report(report)) == report && report != ""
  {
    TrimFixes(reply.response);
  }

  /** A run in which every report came from the rewriter's own checks. */
  ghost predicate GenuineReports(tr: Trace, maxOutputChars: int) {
    forall i :: 0 <= i < |tr| && tr[i].Rewrite? && tr[i].rewrite.Report? ==> Genuine(tr[i].rewrite.text, maxOutputChars)
  }

  ghost predicate Genuine(report: string, maxOutputChars: int) {
    exists reply :: AcceptReport(reply, maxOutputChars) == Ok(report)
  }

  lemma GenuineIsTrimmed(report: string, maxOutputChars: int)
    requires Genuine(report, maxOutputChars)
    ensures report != "" && TrimSpace(report) == report
    ensures maxOutputChars > 0 ==> |report| <= maxOutputChars
  {
    var reply :| AcceptReport(reply, maxOutputChars) == Ok(report);
    TrimFixes(reply.response);
  }

  /** The events of the current work are events of the trace. */
  lemma {:induction false} WorkIsPartOf(tr: Trace)
    ensures |Work(tr)| <= |tr|
    ensures Work(tr) == tr[|tr| - |Work(tr)|..]
  {
    if tr != [] {
      var n := |tr| - 1;
      WorkIsPartOf(tr[..n]);
      assert tr == tr[..n] + [tr[n]];
    }
  }

  /** End to end: whatever is published is trimmed and not empty. Without a rewriter, or when
      it failed, it is the trimmed summary of this very delivery; otherwise it is the report
      the rewriter gave for that summary, one it accepted, within the configured length. */
  lemma PublishedIsSummaryOrReport(cfg: Config, tr: Trace, text: string, r: PublishResult, maxOutputChars: int)
      returns (d: Delivery, body: string)
    requires Accepts(cfg, tr + [Publish(text, r)]) && GenuineReports(tr, maxOutputChars)
    requires forall s :: cfg.trim(s) == TrimSpace(s)
    ensures text != "" && Trimmed(text)
    ensures var w := Work(tr);
            && |w| >= 4 && w[0] == Receive(d) && w[3] == Read(Found(body))
            && (!cfg.rewriting ==> text == TrimSpace(body))
    ensures cfg.rewriting ==>
              |Work(tr)| == 5
              && match Work(tr)[4]
                 case Rewrite(summary, RewriteError(_)) => summary == TrimSpace(body) && text == summary
                 case Rewrite(summary, Report(report)) =>
                   summary == TrimSpace(body) && text == report && Genuine(report, maxOutputChars)
                 case _ => false
  {
    d, body := PublishedText(cfg, tr, text, r);
    var w := Work(tr);
    TrimFixes(body);
    TrimFixes(text);
    WorkIsPartOf(tr);
    if cfg.rewriting && w[4].rewrite.Report? {
      assert w[4] == tr[|tr| - |w| + 4];
      GenuineIsTrimmed(w[4].rewrite.text, maxOutputChars);
    }
  }
}
