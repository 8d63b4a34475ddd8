/** The `/api/receipts` handler of `backend/app.py`. It reads each message just as `app.py`
    does (date, sender, body parts, total), but it decides whether a message is a receipt from
    the snippet alone, never counts a PDF attachment as a reason to keep it, and returns no
    `has_pdf` key. Receipts without a total are dropped as in `app.py`. */
module BackendReceipts {
  import opened Wrappers
  import opened Seqs
  import opened Text
  import opened Sender
  import opened Mail
  import MailDate
  import AppReceipts

  /** What the handler makes of one message. */
  function Decide(m: Message, ops: Ops): Result<Option<Receipt>, Fault>
  {
    match DateHeader(m.headers)
    case None => Err(MissingDate(m.id))
    case Some(raw) =>
      if AnyKeyword(m.snippet) || Contains(Lower(m.snippet), "receipt") then
        Ok(Some(BuildReceipt(m, ops, MailDate.Reformat(raw), None)))
      else Ok(None)
  }

  function DecideWith(ops: Ops): Message -> Result<Option<Receipt>, Fault>
  {
    m => Decide(m, ops)
  }

  /** The body of the loop over the messages, statement by statement. The decoded text serves
      only the search for a total. */
  method ProcessMessage(m: Message, ops: Ops) returns (r: Result<Option<Receipt>, Fault>)
    ensures r == DecideWith(ops)(m)
  {
    var dateStr := DateHeader(m.headers);
    if dateStr.None? {
      return Err(MissingDate(m.id));
    }
    var formattedDate := MailDate.Reformat(dateStr.value);
    var senderName, senderEmail := ExtractSenderInfo(m.headers, m.snippet, ops.atName);
    var total: Option<string> := None;
    var emailData := m.bodyData;
    if emailData == "" {
      var sawPdf;
      emailData, total, sawPdf := ScanParts(m.parts, ops.extractTotal);
    }
    if emailData != "" {
      var content := ops.decode(emailData);
      if !Truthy(total) {
        total := ops.extractTotal(content);
      }
    }
    var isReceipt := AnyKeyword(m.snippet);
    if isReceipt || Contains(Lower(m.snippet), "receipt") {
      r := Ok(Some(Receipt(formattedDate, None, LinkPrefix + m.id, senderName, senderEmail,
                           m.snippet, if Truthy(total) then total.value else NoTotal)));
    } else {
      r := Ok(None);
    }
  }

  /** The loop over the fetched messages followed by the `N/A` filter. */
  method GetReceipts(messages: seq<Message>, ops: Ops) returns (r: Result<seq<Receipt>, Fault>)
    ensures r == Finish(Collect(messages, DecideWith(ops)))
  {
    var receipts: seq<Receipt> := [];
    var i := 0;
    while i < |messages|
      invariant 0 <= i <= |messages|
      invariant Collect(messages[..i], DecideWith(ops)) == Ok(receipts)
    {
      var d := ProcessMessage(messages[i], ops);
      if d.Err? {
        CollectFailsAt(messages, DecideWith(ops), i, receipts);
        return Err(d.error);
      }
      CollectStep(messages, DecideWith(ops), i, receipts);
      if d.value.Some? {
        receipts := receipts + [d.value.value];
      } else {
        assert receipts + [] == receipts;
      }
      i := i + 1;
    }
    assert messages[..i] == messages;
    r := Ok(Filter(HasTotal, receipts));
  }

  // ----- Properties -----

  /** A message fails the request exactly when it has no `Date` header; otherwise it is kept
      exactly when a keyword or `receipt` occurs in its snippet. */
  lemma KeepRule(m: Message, ops: Ops)
    ensures Decide(m, ops).Err? <==> forall i :: 0 <= i < |m.headers| ==> !IsDate(m.headers[i])
    ensures Decide(m, ops).Ok? ==>
              (Decide(m, ops).value.Some? <==> AnyKeyword(m.snippet) || Contains(Lower(m.snippet), "receipt"))
  {
    NoDateIff(m.headers);
  }

  /** Whether a message is kept depends on its headers and snippet only: the body, the parts,
      the decoder and the total search make no difference. */
  lemma SnippetOnly(m1: Message, ops1: Ops, m2: Message, ops2: Ops)
    requires m1.headers == m2.headers && m1.snippet == m2.snippet
    ensures Decide(m1, ops1).Ok? <==> Decide(m2, ops2).Ok?
    ensures Decide(m1, ops1).Ok? ==> (Decide(m1, ops1).value.Some? <==> Decide(m2, ops2).value.Some?)
  {
    KeepRule(m1, ops1);
    KeepRule(m2, ops2);
  }

  /** The fields of a kept receipt: the reformatted first `Date` header, no `has_pdf` entry, the
      sender the `From` headers give, the Gmail link of the message, its snippet, and the total
      or `N/A`. */
  lemma ReceiptFields(m: Message, ops: Ops)
    requires Decide(m, ops).Ok? && Decide(m, ops).value.Some?
    ensures var r := Decide(m, ops).value.value;
            && r.date == MailDate.Reformat(DateHeader(m.headers).value)
            && r.hasPdf.None?
            && (r.senderName, r.senderEmail) == SenderInfo(m.headers, m.snippet, ops.atName)
            && r.link == LinkPrefix + m.id && r.link[|LinkPrefix|..] == m.id
            && r.snippet == m.snippet
            && (Truthy(Total(m, ops)) ==> r.total == Total(m, ops).value)
            && (!Truthy(Total(m, ops)) ==> r.total == NoTotal)
  {
  }

  /** The handler fails exactly when some message has no `Date` header. When it succeeds, a
      receipt is returned exactly when some message was kept with it and its total is not
      `N/A`; no returned receipt has total `N/A`, and there are no more receipts than
      messages. */
  lemma ReturnedReceipts(ms: seq<Message>, ops: Ops)
    ensures Finish(Collect(ms, DecideWith(ops))).Ok? <==>
              forall i :: 0 <= i < |ms| ==> DateHeader(ms[i].headers).Some?
    ensures Finish(Collect(ms, DecideWith(ops))).Ok? ==>
              var rs := Finish(Collect(ms, DecideWith(ops))).value;
              |rs| <= |ms| &&
              (forall r :: r in rs ==> r.total != NoTotal) &&
              (forall r :: r in rs <==> r.total != NoTotal && exists i :: 0 <= i < |ms| && Decide(ms[i], ops) == Ok(Some(r)))
  {
    var f := DecideWith(ops);
    assert forall i :: 0 <= i < |ms| ==> f(ms[i]) == Decide(ms[i], ops);
    HandlerResult(ms, f);
  }

  /** Message order is kept: handling two batches of messages one after the other returns the
      receipts of the first batch followed by those of the second. */
  lemma ReceiptsInMessageOrder(a: seq<Message>, b: seq<Message>, ops: Ops)
    requires Collect(a, DecideWith(ops)).Ok? && Collect(b, DecideWith(ops)).Ok?
    ensures Finish(Collect(a + b, DecideWith(ops))) ==
            Ok(Finish(Collect(a, DecideWith(ops))).value + Finish(Collect(b, DecideWith(ops))).value)
  {
    HandlerInOrder(a, b, DecideWith(ops));
  }

  // ----- How the two back ends differ -----

  /** The two handlers fail on the same messages, and a message both keep gives the same
      receipt, except that only `app.py` records `has_pdf`. */
  lemma SameReceiptWhenBothKeep(m: Message, ops: Ops)
    ensures Decide(m, ops).Err? <==> AppReceipts.Decide(m, ops).Err?
    ensures Decide(m, ops).Ok? && Decide(m, ops).value.Some? &&
            AppReceipts.Decide(m, ops).value.Some? ==>
              Decide(m, ops).value.value == AppReceipts.Decide(m, ops).value.value.(hasPdf := None)
  {
  }

  /** A message whose only sign of being a receipt is a PDF attachment is kept by `app.py`
      and dropped here. */
  lemma PdfOnlyDroppedHere(m: Message, ops: Ops, i: int)
    requires DateHeader(m.headers).Some? && m.bodyData == ""
    requires 0 <= i < |m.parts| && IsPdfPart(m.parts[i])
    requires !AnyKeyword(m.snippet) && !Contains(Lower(m.snippet), "receipt")
    ensures AppReceipts.Decide(m, ops).Ok? && AppReceipts.Decide(m, ops).value.Some?
    ensures Decide(m, ops) == Ok(None)
  {
    AppReceipts.PdfAttachmentKept(m, ops, i);
  }

  /** A message whose keyword is in its text but not in its snippet is kept by `app.py` and
      dropped here. */
  lemma TextKeywordDroppedHere(m: Message, ops: Ops, k: int)
    requires DateHeader(m.headers).Some?
    requires 0 <= k < |Keywords| && Contains(Lower(Content(m, ops)), Keywords[k])
    requires !AnyKeyword(m.snippet) && !Contains(Lower(m.snippet), "receipt")
    ensures AppReceipts.Decide(m, ops).Ok? && AppReceipts.Decide(m, ops).value.Some?
    ensures Decide(m, ops) == Ok(None)
  {
    AppReceipts.KeywordInTextKept(m, ops, k);
  }

  /** A message whose keyword is in its snippet only, with no PDF attachment, is kept here and
      dropped by `app.py`. */
  lemma SnippetKeywordKeptHere(m: Message, ops: Ops)
    requires DateHeader(m.headers).Some? && !SawPdf(m)
    requires AnyKeyword(m.snippet) && !AnyKeyword(Content(m, ops))
    requires !Contains(Lower(m.snippet), "receipt")
    ensures Decide(m, ops).Ok? && Decide(m, ops).value.Some?
    ensures AppReceipts.Decide(m, ops) == Ok(None)
  {
  }
}
