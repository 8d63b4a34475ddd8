/** What the two Flask back ends (`app.py` and `backend/app.py`) share: the message as the
    Gmail API delivers it, the receipt record they return, the reading of a message's body
    parts, and the fold that turns the fetched messages into the list of receipts. */
module Mail {
  import opened Wrappers
  import opened Seqs
  import opened Text
  import opened Sender

  /** One entry of `payload.parts`. A missing `body.data` reads as the empty string, and only
      the presence of `body.attachmentId` matters. `pdfText` is the text the PDF library would
      extract from the attachment the id names. */
  datatype Part = Part(mimeType: string, filename: string, data: string, hasAttachmentId: bool, pdfText: string)

  /** A fetched message: its id, `payload.headers`, `snippet`, `payload.body.data` (empty when
      missing) and `payload.parts` (empty when missing). */
  datatype Message = Message(id: string, headers: seq<Header>, snippet: string, bodyData: string, parts: seq<Part>)

  /** The helpers whose insides are not modelled: base64 decoding, the total-amount regular
      expression, and the "at Somebody" search of the snippet. */
  datatype Ops = Ops(decode: string -> string, extractTotal: string -> Option<string>, atName: string -> Option<string>)

  /** A returned receipt. `hasPdf` is `None` where the back end has no `has_pdf` key. */
  datatype Receipt = Receipt(date: string, hasPdf: Option<bool>, link: string, senderName: Option<string>,
                             senderEmail: Option<string>, snippet: string, total: string)

  /** The only way processing a message fails: it has no `Date` header, so the search for one
      raises `StopIteration` and the whole request fails. */
  datatype Fault = MissingDate(id: string)

  const Keywords: seq<string> := ["total", "amount paid", "transaction id", "order id"]
  const LinkPrefix: string := "https://mail.google.com/mail/u/0/#inbox/"
  const NoContent: string := "No readable content found."
  const NoTotal: string := "N/A"
  const PlainText: string := "text/plain"
  const PdfType: string := "application/pdf"

  /** Python truthiness of an optional string: present and non-empty. */
  predicate Truthy(t: Option<string>)
  {
    t.Some? && t.value != ""
  }

  predicate IsDate(h: Header)
  {
    Lower(h.name) == "date"
  }

  /** The value of the first `Date` header, whatever the case of its name. */
  function DateHeader(hs: seq<Header>): Option<string>
  {
    if hs == [] then None
    else if IsDate(hs[0]) then Some(hs[0].value)
    else DateHeader(hs[1..])
  }

  /** A part counts as a PDF attachment when it has a file name, the PDF type and an id. */
  predicate IsPdfPart(p: Part)
  {
    p.filename != "" && p.mimeType == PdfType && p.hasAttachmentId
  }

  /** The body data the parts loop leaves: that of the last `text/plain` part. */
  function PartsData(parts: seq<Part>): string
  {
    if parts == [] then ""
    else
      var p := parts[|parts| - 1];
      if p.mimeType == PlainText then p.data else PartsData(parts[..|parts| - 1])
  }

  /** The total the parts loop leaves: the amount found in the last PDF attachment, which may
      be none even when an earlier attachment had one. */
  function PartsTotal(parts: seq<Part>, extractTotal: string -> Option<string>): Option<string>
  {
    if parts == [] then None
    else
      var p := parts[|parts| - 1];
      if IsPdfPart(p) then extractTotal(p.pdfText) else PartsTotal(parts[..|parts| - 1], extractTotal)
  }

  predicate HasPdfPart(parts: seq<Part>)
  {
    exists i :: 0 <= i < |parts| && IsPdfPart(parts[i])
  }

  /** The loop over the parts, which runs only when the message body itself has no data. */
  method ScanParts(parts: seq<Part>, extractTotal: string -> Option<string>)
    returns (data: string, total: Option<string>, hasPdf: bool)
    ensures data == PartsData(parts)
    ensures total == PartsTotal(parts, extractTotal)
    ensures hasPdf <==> HasPdfPart(parts)
  {
    data, total, hasPdf := "", None, false;
    var i := 0;
    while i < |parts|
      invariant 0 <= i <= |parts|
      invariant data == PartsData(parts[..i])
      invariant total == PartsTotal(parts[..i], extractTotal)
      invariant hasPdf <==> exists j :: 0 <= j < i && IsPdfPart(parts[j])
    {
      var part := parts[i];
      assert parts[..i + 1][..i] == parts[..i];
      if part.mimeType == PlainText {
        data := part.data;
      }
      if part.filename != "" && part.mimeType == PdfType && part.hasAttachmentId {
        total := extractTotal(part.pdfText);
        hasPdf := true;
      }
      i := i + 1;
    }
    assert parts[..i] == parts;
  }

  /** The encoded body a message's text is decoded from. */
  function EmailData(m: Message): string
  {
    if m.bodyData != "" then m.bodyData else PartsData(m.parts)
  }

  /** The total taken from PDF attachments, which are looked at only when the body is empty. */
  function PdfTotal(m: Message, ops: Ops): Option<string>
  {
    if m.bodyData != "" then None else PartsTotal(m.parts, ops.extractTotal)
  }

  /** Whether the parts loop met a PDF attachment. */
  predicate SawPdf(m: Message)
  {
    m.bodyData == "" && HasPdfPart(m.parts)
  }

  /** The decoded text, or the placeholder when there is nothing to decode. */
  function Content(m: Message, ops: Ops): string
  {
    if EmailData(m) != "" then ops.decode(EmailData(m)) else NoContent
  }

  /** The amount found: the PDF's, unless it is missing or empty and there is a text to search. */
  function Total(m: Message, ops: Ops): Option<string>
  {
    var pdf := PdfTotal(m, ops);
    if EmailData(m) != "" && !Truthy(pdf) then ops.extractTotal(ops.decode(EmailData(m))) else pdf
  }

  /** The `total` field: the amount, or `N/A` when there is none. */
  function TotalText(t: Option<string>): string
  {
    if Truthy(t) then t.value else NoTotal
  }

  /** Some keyword occurs in the lower-cased text. The handlers lower-case each keyword as
      well, which leaves these keywords as they are (`KeywordsLowerCase`). */
  predicate AnyKeyword(text: string)
  {
    exists k :: 0 <= k < |Keywords| && Contains(Lower(text), Keywords[k])
  }

  /** The receipt both back ends build from a message once they keep it. */
  function BuildReceipt(m: Message, ops: Ops, date: string, hasPdf: Option<bool>): Receipt
  {
    var sender := SenderInfo(m.headers, m.snippet, ops.atName);
    Receipt(date, hasPdf, LinkPrefix + m.id, sender.0, sender.1, m.snippet, TotalText(Total(m, ops)))
  }

  /** The loop over the fetched messages: each message either fails the request or adds at
      most one receipt, in message order. */
  function Collect(ms: seq<Message>, decide: Message -> Result<Option<Receipt>, Fault>): Result<seq<Receipt>, Fault>
  {
    if ms == [] then Ok([])
    else
      var earlier :- Collect(ms[..|ms| - 1], decide);
      var d :- decide(ms[|ms| - 1]);
      Ok(earlier + (if d.Some? then [d.value] else []))
  }

  predicate HasTotal(r: Receipt)
  {
    r.total != NoTotal
  }

  /** The final comprehension: receipts whose total is `N/A` are dropped. */
  function Finish(res: Result<seq<Receipt>, Fault>): Result<seq<Receipt>, Fault>
  {
    match res
    case Ok(rs) => Ok(Filter(HasTotal, rs))
    case Err(e) => Err(e)
  }

  // ----- Properties -----

  /** Lower-casing the keywords changes none of them. */
  lemma KeywordsLowerCase()
    ensures forall k :: 0 <= k < |Keywords| ==> Lower(Keywords[k]) == Keywords[k]
  {
    forall k | 0 <= k < |Keywords|
      ensures Lower(Keywords[k]) == Keywords[k]
    {
      LowerKeeps(Keywords[k]);
    }
  }

  /** The date comes from the first `Date` header; later ones are ignored. */
  lemma {:induction false} FirstDateWins(hs: seq<Header>, i: int)
    requires 0 <= i < |hs| && IsDate(hs[i])
    requires forall j :: 0 <= j < i ==> !IsDate(hs[j])
    ensures DateHeader(hs) == Some(hs[i].value)
  {
    if i > 0 {
      assert !IsDate(hs[0]);
      FirstDateWins(hs[1..], i - 1);
    }
  }

  /** The date is missing exactly when no header is a `Date` header. */
  lemma {:induction false} NoDateIff(hs: seq<Header>)
    ensures DateHeader(hs).None? <==> forall i :: 0 <= i < |hs| ==> !IsDate(hs[i])
  {
    if hs != [] {
      NoDateIff(hs[1..]);
      assert forall i :: 1 <= i < |hs| ==> hs[i] == hs[1..][i - 1];
    }
  }

  /** The body data comes from the last `text/plain` part, even when that part's data is empty. */
  lemma {:induction false} LastPlainWins(parts: seq<Part>, i: int)
    requires 0 <= i < |parts| && parts[i].mimeType == PlainText
    requires forall j :: i < j < |parts| ==> parts[j].mimeType != PlainText
    ensures PartsData(parts) == parts[i].data
  {
    var n := |parts| - 1;
    if i < n {
      var init := parts[..n];
      assert forall j :: 0 <= j < n ==> init[j] == parts[j];
      assert parts[n].mimeType != PlainText;
      LastPlainWins(init, i);
    }
  }

  /** The PDF total is what the last PDF attachment yields, missing or not. */
  lemma {:induction false} LastPdfWins(parts: seq<Part>, f: string -> Option<string>, i: int)
    requires 0 <= i < |parts| && IsPdfPart(parts[i])
    requires forall j :: i < j < |parts| ==> !IsPdfPart(parts[j])
    ensures PartsTotal(parts, f) == f(parts[i].pdfText)
  {
    var n := |parts| - 1;
    if i < n {
      var init := parts[..n];
      assert forall j :: 0 <= j < n ==> init[j] == parts[j];
      assert !IsPdfPart(parts[n]);
      LastPdfWins(init, f, i);
    }
  }

  /** Without a PDF attachment there is no PDF total. */
  lemma {:induction false} NoPdfNoTotal(parts: seq<Part>, f: string -> Option<string>)
    requires !HasPdfPart(parts)
    ensures PartsTotal(parts, f) == None
  {
    if parts != [] {
      var n := |parts| - 1;
      var init := parts[..n];
      assert !IsPdfPart(parts[n]);
      assert !HasPdfPart(init) by {
        forall j | 0 <= j < n ensures !IsPdfPart(init[j]) {
          assert init[j] == parts[j];
        }
      }
      NoPdfNoTotal(init, f);
    }
  }

  /** The text is searched for an amount only when the PDF gave no usable one: a usable PDF
      amount is kept whatever the text says, and otherwise the amount is the text's. */
  lemma TotalChoice(m: Message, ops: Ops, other: string -> string)
    ensures Truthy(PdfTotal(m, ops)) ==> Total(m, ops) == PdfTotal(m, ops) == Total(m, ops.(decode := other))
    ensures !Truthy(PdfTotal(m, ops)) && EmailData(m) != "" ==> Total(m, ops) == ops.extractTotal(Content(m, ops))
    ensures EmailData(m) == "" ==> Total(m, ops) == PdfTotal(m, ops)
  {
  }

  /** A message whose body has data never looks at its parts. */
  lemma BodyHidesParts(m: Message, ops: Ops, parts: seq<Part>)
    requires m.bodyData != ""
    ensures Content(m, ops) == Content(m.(parts := parts), ops) == ops.decode(m.bodyData)
    ensures Total(m, ops) == Total(m.(parts := parts), ops) == ops.extractTotal(ops.decode(m.bodyData))
    ensures !SawPdf(m)
  {
  }

  /** Lower-casing the placeholder works piece by piece. */
  lemma PlaceholderPieces()
    ensures Lower(NoContent) == Lower("No readable con") + Lower("tent found.")
  {
    assert NoContent == "No readable con" + "tent found.";
  }

  /** `total` would have to start in the first piece, which has no `t`, or lie in the second,
      which has no `a`. */
  lemma PlaceholderLacksTotal()
    ensures !Contains(Lower(NoContent), "total")
  {
    PlaceholderPieces();
    LowerAvoids("No readable con", 't');
    LowerAvoids("tent found.", 'a');
    SplitMissing(Lower("No readable con"), Lower("tent found."), "total", 3);
  }

  /** The other keywords hold an `i`, which the placeholder lacks. */
  lemma PlaceholderLacksI()
    ensures 'i' !in Lower(NoContent)
  {
    LowerAvoids(NoContent, 'i');
  }

  /** The placeholder text holds none of the keywords, so a message without readable text is
      kept only for its snippet or its attachment. */
  lemma NoContentHasNoKeyword()
    ensures !AnyKeyword(NoContent)
  {
    var low := Lower(NoContent);
    PlaceholderLacksTotal();
    PlaceholderLacksI();
    forall k | 0 <= k < |Keywords|
      ensures !Contains(low, Keywords[k])
    {
      if k == 1 {
        MissingChar(low, "amount paid", 9);
      } else if k == 2 {
        MissingChar(low, "transaction id", 12);
      } else if k == 3 {
        MissingChar(low, "order id", 6);
      }
    }
  }

  /** The fold fails exactly when some message fails. */
  lemma {:induction false} CollectOkIff(ms: seq<Message>, decide: Message -> Result<Option<Receipt>, Fault>)
    ensures Collect(ms, decide).Ok? <==> forall i :: 0 <= i < |ms| ==> decide(ms[i]).Ok?
  {
    if ms != [] {
      var n := |ms| - 1;
      var init := ms[..n];
      assert forall j :: 0 <= j < n ==> init[j] == ms[j];
      CollectOkIff(init, decide);
    }
  }

  /** One more message processed: the loop's step. */
  lemma CollectStep(ms: seq<Message>, decide: Message -> Result<Option<Receipt>, Fault>, i: int, rs: seq<Receipt>)
    requires 0 <= i < |ms| && Collect(ms[..i], decide) == Ok(rs) && decide(ms[i]).Ok?
    ensures Collect(ms[..i + 1], decide) ==
            Ok(rs + if decide(ms[i]).value.Some? then [decide(ms[i]).value.value] else [])
  {
    var upTo := ms[..i + 1];
    assert upTo[..i] == ms[..i] && upTo[i] == ms[i];
  }

  /** The failure reported is that of the first failing message. */
  lemma {:induction false} CollectFirstFault(ms: seq<Message>, decide: Message -> Result<Option<Receipt>, Fault>, i: int)
    requires 0 <= i < |ms| && decide(ms[i]).Err?
    requires forall j :: 0 <= j < i ==> decide(ms[j]).Ok?
    ensures Collect(ms, decide) == Err(decide(ms[i]).error)
  {
    var n := |ms| - 1;
    var init := ms[..n];
    assert forall j :: 0 <= j < n ==> init[j] == ms[j];
    if i < n {
      CollectFirstFault(init, decide, i);
    } else {
      CollectOkIff(init, decide);
    }
  }

  /** A failure met by the loop after the messages before it went through is the result. */
  lemma CollectFailsAt(ms: seq<Message>, decide: Message -> Result<Option<Receipt>, Fault>, i: int, rs: seq<Receipt>)
    requires 0 <= i < |ms| && Collect(ms[..i], decide) == Ok(rs) && decide(ms[i]).Err?
    ensures Collect(ms, decide) == Err(decide(ms[i]).error)
  {
    CollectOkIff(ms[..i], decide);
    assert forall j :: 0 <= j < i ==> ms[..i][j] == ms[j];
    CollectFirstFault(ms, decide, i);
  }

  /** Messages processed one batch after another give the receipts of the first batch
      followed by those of the second: the order of the messages is kept. */
  lemma {:induction false} CollectAppend(a: seq<Message>, b: seq<Message>, decide: Message -> Result<Option<Receipt>, Fault>)
    requires Collect(a, decide).Ok? && Collect(b, decide).Ok?
    ensures Collect(a + b, decide) == Ok(Collect(a, decide).value + Collect(b, decide).value)
  {
    if b != [] {
      var n := |b| - 1;
      assert (a + b)[..|a + b| - 1] == a + b[..n];
      assert (a + b)[|a + b| - 1] == b[n];
      assert Collect(b[..n], decide).Ok? && decide(b[n]).Ok?;
      CollectAppend(a, b[..n], decide);
      var tail := if decide(b[n]).value.Some? then [decide(b[n]).value.value] else [];
      assert Collect(b, decide).value == Collect(b[..n], decide).value + tail;
      var A, B := Collect(a, decide).value, Collect(b[..n], decide).value;
      assert Collect(a + b, decide) == Ok((A + B) + tail);
      assert (A + B) + tail == A + (B + tail);
    } else {
      assert a + b == a;
      assert Collect(b, decide) == Ok([]);
      assert Collect(a, decide).value + [] == Collect(a, decide).value;
    }
  }

  /** Every receipt collected is the one some message decided on, and every message kept
      contributes its receipt. */
  lemma {:induction false} CollectMember(ms: seq<Message>, decide: Message -> Result<Option<Receipt>, Fault>, r: Receipt)
    requires Collect(ms, decide).Ok?
    ensures r in Collect(ms, decide).value <==> exists i :: 0 <= i < |ms| && decide(ms[i]) == Ok(Some(r))
  {
    if ms != [] {
      var n := |ms| - 1;
      var init := ms[..n];
      assert forall j :: 0 <= j < n ==> init[j] == ms[j];
      CollectMember(init, decide, r);
    }
  }

  /** Each message adds at most one receipt. */
  lemma {:induction false} CollectBound(ms: seq<Message>, decide: Message -> Result<Option<Receipt>, Fault>)
    requires Collect(ms, decide).Ok?
    ensures |Collect(ms, decide).value| <= |ms|
  {
    if ms != [] {
      CollectBound(ms[..|ms| - 1], decide);
    }
  }

  /** The final filter keeps, in order, exactly the receipts whose total is not `N/A`. */
  lemma FinishKeepsTotals(res: Result<seq<Receipt>, Fault>)
    ensures Finish(res).Ok? <==> res.Ok?
    ensures res.Err? ==> Finish(res) == res
    ensures res.Ok? ==> IsSubseq(Finish(res).value, res.value)
    ensures res.Ok? ==> forall r :: r in Finish(res).value <==> r in res.value && r.total != NoTotal
  {
    if res.Ok? {
      FilterIsSubseq(HasTotal, res.value);
      forall r ensures r in Finish(res).value <==> r in res.value && HasTotal(r) {
        FilterMember(HasTotal, res.value, r);
      }
    }
  }

  /** The handler's loop and final filter, for a rule that fails on a message exactly when it
      has no `Date` header: the result is an error exactly when some message has none. On
      success a receipt is returned exactly when some message was kept with it and its total
      is not `N/A`; no returned receipt has total `N/A`, and there are no more receipts than
      messages. */
  lemma HandlerResult(ms: seq<Message>, decide: Message -> Result<Option<Receipt>, Fault>)
    requires forall i :: 0 <= i < |ms| ==> (decide(ms[i]).Ok? <==> DateHeader(ms[i].headers).Some?)
    ensures Finish(Collect(ms, decide)).Ok? <==>
              forall i :: 0 <= i < |ms| ==> DateHeader(ms[i].headers).Some?
    ensures Finish(Collect(ms, decide)).Ok? ==>
              var rs := Finish(Collect(ms, decide)).value;
              |rs| <= |ms| &&
              (forall r :: r in rs ==> r.total != NoTotal) &&
              (forall r :: r in rs <==> r.total != NoTotal && exists i :: 0 <= i < |ms| && decide(ms[i]) == Ok(Some(r)))
  {
    CollectOkIff(ms, decide);
    FinishKeepsTotals(Collect(ms, decide));
    if Collect(ms, decide).Ok? {
      CollectBound(ms, decide);
      forall r ensures r in Collect(ms, decide).value <==> exists i :: 0 <= i < |ms| && decide(ms[i]) == Ok(Some(r)) {
        CollectMember(ms, decide, r);
      }
    }
  }

  /** Handling two batches of messages one after the other returns the receipts of the first
      batch followed by those of the second: the handler keeps message order. */
  lemma HandlerInOrder(a: seq<Message>, b: seq<Message>, decide: Message -> Result<Option<Receipt>, Fault>)
    requires Collect(a, decide).Ok? && Collect(b, decide).Ok?
    ensures Finish(Collect(a + b, decide)) ==
            Ok(Finish(Collect(a, decide)).value + Finish(Collect(b, decide)).value)
  {
    CollectAppend(a, b, decide);
    FilterAppend(HasTotal, Collect(a, decide).value, Collect(b, decide).value);
  }
}
