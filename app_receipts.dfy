/** The `/api/receipts` handler of `app.py`: for every fetched message it reformats the date,
    reads the sender, scans the body parts, decides whether the message is a receipt (a keyword
    in the decoded text, `receipt` in the snippet, or a PDF attachment) and finally drops the
    receipts without a total. Also the file name rule of `save_email_as_pdf`. */
module AppReceipts {
  import opened Wrappers
  import opened Seqs
  import opened Text
  import opened Sender
  import opened Mail
  import MailDate

  /** What the handler makes of one message. */
  function Decide(m: Message, ops: Ops): Result<Option<Receipt>, Fault>
  {
    match DateHeader(m.headers)
    case None => Err(MissingDate(m.id))
    case Some(raw) =>
      if AnyKeyword(Content(m, ops)) || Contains(Lower(m.snippet), "receipt") || SawPdf(m) then
        Ok(Some(BuildReceipt(m, ops, MailDate.Reformat(raw), Some(SawPdf(m)))))
      else Ok(None)
  }

  function DecideWith(ops: Ops): Message -> Result<Option<Receipt>, Fault>
  {
    m => Decide(m, ops)
  }

  /** The body of the loop over the messages, statement by statement. */
  method ProcessMessage(m: Message, ops: Ops) returns (r: Result<Option<Receipt>, Fault>)
    ensures r == DecideWith(ops)(m)
  {
    var dateStr := DateHeader(m.headers);
    if dateStr.None? {
      return Err(MissingDate(m.id));
    }
    var formattedDate := MailDate.Reformat(dateStr.value);
    var senderName, senderEmail := ExtractSenderInfo(m.headers, m.snippet, ops.atName);
    var hasPdf := false;
    var total: Option<string> := None;
    var emailData := m.bodyData;
    if emailData == "" {
      emailData, total, hasPdf := ScanParts(m.parts, ops.extractTotal);
    }
    var content: string;
    if emailData != "" {
      content := ops.decode(emailData);
      if !Truthy(total) {
        total := ops.extractTotal(content);
      }
    } else {
      content := NoContent;
    }
    var isReceipt := AnyKeyword(content);
    if isReceipt || Contains(Lower(m.snippet), "receipt") || hasPdf {
      r := Ok(Some(Receipt(formattedDate, Some(hasPdf), LinkPrefix + m.id, senderName, senderEmail,
                           m.snippet, if Truthy(total) then total.value else NoTotal)));
    } else {
      r := Ok(None);
    }
  }

  /** The loop over the fetched messages followed by the `N/A` filter. */
  method GetReceipts(messages: seq<Message>, ops: Ops) returns (r: Result<seq<Receipt>, Fault>)
    ensures r == Finish(Collect(messages, DecideWith(ops)))
  {
    var receipts: seq<Receipt> := [];
    var i := 0;
    while i < |messages|
      invariant 0 <= i <= |messages|
      invariant Collect(messages[..i], DecideWith(ops)) == Ok(receipts)
    {
      var d := ProcessMessage(messages[i], ops);
      if d.Err? {
        CollectFailsAt(messages, DecideWith(ops), i, receipts);
        return Err(d.error);
      }
      CollectStep(messages, DecideWith(ops), i, receipts);
      if d.value.Some? {
        receipts := receipts + [d.value.value];
      } else {
        assert receipts + [] == receipts;
      }
      i := i + 1;
    }
    assert messages[..i] == messages;
    r := Ok(Filter(HasTotal, receipts));
  }

  // ----- Properties -----

  /** A message fails the request exactly when it has no `Date` header; otherwise it is kept
      exactly when a keyword occurs in its text, `receipt` in its snippet, or it had a PDF
      attachment. */
  lemma KeepRule(m: Message, ops: Ops)
    ensures Decide(m, ops).Err? <==> forall i :: 0 <= i < |m.headers| ==> !IsDate(m.headers[i])
    ensures Decide(m, ops).Ok? ==>
              (Decide(m, ops).value.Some? <==>
                 AnyKeyword(Content(m, ops)) || Contains(Lower(m.snippet), "receipt") || SawPdf(m))
  {
    NoDateIff(m.headers);
  }

  /** A message with a Date header and a PDF attachment among the parts of an empty body is
      kept and marked as having a PDF, whatever its text and snippet say. */
  lemma PdfAttachmentKept(m: Message, ops: Ops, i: int)
    requires DateHeader(m.headers).Some? && m.bodyData == ""
    requires 0 <= i < |m.parts| && IsPdfPart(m.parts[i])
    ensures Decide(m, ops).Ok? && Decide(m, ops).value.Some?
    ensures Decide(m, ops).value.value.hasPdf == Some(true)
  {
  }

  /** A keyword found in the decoded text keeps the message, whichever keyword and in
      whatever case. */
  lemma KeywordInTextKept(m: Message, ops: Ops, k: int)
    requires DateHeader(m.headers).Some?
    requires 0 <= k < |Keywords| && Contains(Lower(Content(m, ops)), Keywords[k])
    ensures Decide(m, ops).Ok? && Decide(m, ops).value.Some?
  {
  }

  /** The fields of a kept receipt: the reformatted first `Date` header, the sender the `From`
      headers give, the Gmail link of the message, its snippet, and the total or `N/A`. */
  lemma ReceiptFields(m: Message, ops: Ops)
    requires Decide(m, ops).Ok? && Decide(m, ops).value.Some?
    ensures var r := Decide(m, ops).value.value;
            && r.date == MailDate.Reformat(DateHeader(m.headers).value)
            && (r.senderName, r.senderEmail) == SenderInfo(m.headers, m.snippet, ops.atName)
            && r.link == LinkPrefix + m.id && r.link[|LinkPrefix|..] == m.id
            && r.snippet == m.snippet
            && r.hasPdf == Some(SawPdf(m))
            && (Truthy(Total(m, ops)) ==> r.total == Total(m, ops).value)
            && (!Truthy(Total(m, ops)) ==> r.total == NoTotal)
  {
  }

  /** The handler fails exactly when some message has no `Date` header, and then with the
      first such message. When it succeeds, a receipt is returned exactly when some message
      was kept with it and its total is not `N/A`; no returned receipt has total `N/A`, and
      there are no more receipts than messages. */
  lemma ReturnedReceipts(ms: seq<Message>, ops: Ops)
    ensures Finish(Collect(ms, DecideWith(ops))).Ok? <==>
              forall i :: 0 <= i < |ms| ==> DateHeader(ms[i].headers).Some?
    ensures Finish(Collect(ms, DecideWith(ops))).Ok? ==>
              var rs := Finish(Collect(ms, DecideWith(ops))).value;
              |rs| <= |ms| &&
              (forall r :: r in rs ==> r.total != NoTotal) &&
              (forall r :: r in rs <==> r.total != NoTotal && exists i :: 0 <= i < |ms| && Decide(ms[i], ops) == Ok(Some(r)))
  {
    var f := DecideWith(ops);
    assert forall i :: 0 <= i < |ms| ==> f(ms[i]) == Decide(ms[i], ops);
    HandlerResult(ms, f);
  }

  /** Message order is kept: handling two batches of messages one after the other returns the
      receipts of the first batch followed by those of the second. */
  lemma ReceiptsInMessageOrder(a: seq<Message>, b: seq<Message>, ops: Ops)
    requires Collect(a, DecideWith(ops)).Ok? && Collect(b, DecideWith(ops)).Ok?
    ensures Finish(Collect(a + b, DecideWith(ops))) ==
            Ok(Finish(Collect(a, DecideWith(ops))).value + Finish(Collect(b, DecideWith(ops))).value)
  {
    HandlerInOrder(a, b, DecideWith(ops));
  }

  // ----- The file name of a saved e-mail -----

  /** The name `save_email_as_pdf` writes to: the given name with every `.pdf` removed, then
      `_`, then the message id when one is given and non-empty, else the time stamp `now`
      (the clock's `%Y%m%d-%H%M%S`), then `.pdf`. */
  function SavedPdfName(filename: string, messageId: Option<string>, now: string): (r: string)
    ensures |r| >= 5 && r[|r| - 4..] == ".pdf"
  {
    var stem := RemoveAll(filename, ".pdf");
    if Truthy(messageId) then stem + "_" + messageId.value + ".pdf"
    else stem + "_" + now + ".pdf"
  }

  /** The call the handler makes, with the name `<id>.pdf` and the id itself, writes
      `<id>_<id>.pdf` for an id without `.pdf` in it, whatever the clock says. */
  lemma SavedEmailName(id: string, now: string)
    requires id != "" && !Contains(id, ".pdf")
    ensures SavedPdfName(id + ".pdf", Some(id), now) == id + "_" + id + ".pdf"
  {
    assert ".pdf"[1] != '.' && ".pdf"[2] != '.' && ".pdf"[3] != '.';
    DropSuffix(id, ".pdf");
  }

  /** Without an id the time stamp takes its place; an empty id counts as none. */
  lemma SavedNameWithoutId(filename: string, now: string)
    ensures SavedPdfName(filename, None, now) == SavedPdfName(filename, Some(""), now)
    ensures SavedPdfName(filename, None, now) == RemoveAll(filename, ".pdf") + "_" + now + ".pdf"
  {
  }
}
