# Receiptly: receipt sorting, search and bucketing, and receipt assembly

Receiptly shows the receipts found in a Gmail inbox. It has two layers:

- The React page (`src/App.js`) sorts the fetched receipts newest first and filters them with a search box. It then shows five date sections: Today, Yesterday, Previous 7 Days, Previous 30 Days and Older than 30 Days.
- Two near-identical Flask back ends (`app.py` and `backend/app.py`) read each message. From it they take:
  - the sender, using `extract_sender_info`;
  - the date, reformatted from RFC 5322 section 3.3 to `DD Mon YYYY`;
  - a total from the body or from PDF attachments.

  Each back end then decides whether the message is a receipt. The list it returns drops every receipt whose total is `N/A`.

This Dafny project models both layers.

- `receipt_board.dfy` (module `ReceiptBoard`) — the page:
  - the in-place insertion sort of the fetched array;
  - the search filter;
  - the five sections, as filters over the instants the receipt dates parse to, tested against the starts of days counted from `today`, a parameter;
  - the page state (stored list and stored query), as a class.
- `sender.dfy` (module `Sender`) — `extract_sender_info`, which both back ends share line for line:
  - a header loop method, proved equal to a function of the headers;
  - lemmas about the last `From` header, bracketed values, and the snippet fallback.
- `mail_date.dfy` (module `MailDate`) — the date step:
  - `datetime.strptime(s, '%a, %d %b %Y %H:%M:%S %z')`;
  - `strftime('%d %b %Y')`;
  - keeping the raw header when parsing fails.

  A header written in the format is proved to read back.
- `mail.dfy` (module `Mail`) — what the two back ends share:
  - the message, part and receipt datatypes;
  - the parts loop;
  - the choice of total;
  - the fold over the messages, and the `N/A` filter.
- `app_receipts.dfy` (module `AppReceipts`) — the `app.py` handler, which keeps a message for three reasons:
  - a keyword in its decoded text;
  - `receipt` in its snippet;
  - a PDF attachment.

  Also the file name rule of `save_email_as_pdf`.
- `backend_receipts.dfy` (module `BackendReceipts`) — the `backend/app.py` handler:
  - it keeps a message for its snippet alone;
  - it has no `has_pdf` key.

  Lemmas show where the two handlers disagree.
- `text.dfy`, `seqs.dfy`, `wrappers.dfy` — helpers:
  - Python/JavaScript string operations (`lower`, `strip`, `split`, `in`, `replace`);
  - a generic order-keeping filter, and the subsequence relation;
  - `Option` and `Result`.

Opaque helpers are passed in as parameters, in the `Ops` datatype:

- base64 decoding;
- the total-amount regular expression;
- the "at Somebody" regular expression.

The text a PDF attachment would yield is a field of its part.

A message without a `Date` header makes `next(...)` raise `StopIteration`. That fails the whole request. It is modelled as `Err(MissingDate(id))`, and the first such message decides the error.

What the page does with dates:

- **Yesterday is listed twice.** Previous 7 Days is the half-open range from the start of seven days ago to the start of today (`src/App.js:62-63`). A receipt dated yesterday is therefore listed both under Yesterday and under Previous 7 Days.
- **The -7 boundary.** A receipt dated at any time seven days ago is in Previous 7 Days and in no other section.
- **The sections do not cover every date.** A receipt dated after today is in no section.
- **The date search is case-sensitive.** Only the query is lower-cased (`src/App.js:38`); the date string is not.
- **The sort is global.** The page sorts the whole list once, by the full instant each date gives, time of day included (`src/App.js:25`). The sections are order-keeping filters of it, so each section is newest first.

## Model

| member | source | states |
|---|---|---|
| ReceiptBoard.SortNewestFirst | src/App.js:25 | the array ends newest first by instant, as a permutation of its old contents, with receipts of the same instant in their old relative order (a stable sort) |
| ReceiptBoard.InsertNewest | src/App.js:25 | one insertion step: with the first `i` elements sorted newest first, the first `i + 1` are afterwards, the order at every instant is kept, and the elements after `i` are untouched |
| ReceiptBoard.SwapNeighbours | src/App.js:25 | swapping two neighbours with different instants exchanges exactly them, keeps the multiset, and keeps the order at every instant |
| ReceiptBoard.SameStampOrderIsPermutation | src/App.js:25 | two lists of dated receipts with the same order at every instant are permutations of each other |
| ReceiptBoard.StableSortIsUnique | src/App.js:25 | two newest-first lists with the same order at every instant are equal: any stable descending sort gives this result |
| ReceiptBoard.FilterKeepsNewestFirst | src/App.js:41-44 | filtering a newest-first list leaves it newest first |
| ReceiptBoard.SearchQuery | src/App.js:37-39 | the stored query is the typed input lower-cased |
| ReceiptBoard.Matches | src/App.js:41-44 | a receipt matches when it has a sender name whose lower-cased form contains the query, or when its date string contains the query as it is |
| ReceiptBoard.Search | src/App.js:41-44 | a receipt survives exactly when its lower-cased sender contains the query or its date string does; the result is a subsequence of the stored list and keeps every copy of a surviving receipt |
| ReceiptBoard.EmptyQueryKeepsAll | src/App.js:41-44 | with an empty search box the filtered list is the stored list |
| ReceiptBoard.SenderSearchIgnoresCase | src/App.js:38-42 | a sender name containing the typed text in any case is found |
| ReceiptBoard.DateSearchIsCaseSensitive | src/App.js:38-43 | a date "18 Oct 2024" is found by "18" but not by "Oct", since only the query is lower-cased |
| ReceiptBoard.InSection | src/App.js:56-71 | the five tests: same calendar day as today, same as yesterday, from the start of seven days ago up to the start of today, from the start of thirty days ago up to the start of seven days ago, before the start of thirty days ago; a date that does not parse passes none |
| ReceiptBoard.SectionNamed | src/App.js:56-72 | the five heading names map to their tests, and any other name to none |
| ReceiptBoard.FilterReceiptsBySection | src/App.js:55-73 | the filtered receipts that pass the named heading's test, in their order; the empty list for an unknown name |
| ReceiptBoard.Board | src/App.js:47-53 | the five headings in order, each paired with `filterReceiptsBySection` of it (src/App.js:93-100) |
| ReceiptBoard.DayOf | src/App.js:16-19 | the day an instant falls on is the one whose start is at or before it and whose end is after it |
| ReceiptBoard.MidnightBounds | src/App.js:62-70 | comparing an instant with the start of a day is comparing the day it falls on with that day |
| ReceiptBoard.SectionDays | src/App.js:55-71 | the five instant tests are the day ranges today, today - 1, [today - 7, today), [today - 30, today - 7) and before today - 30 |
| ReceiptBoard.SectionMembers | src/App.js:55-71 | each of the five named sections holds exactly the filtered receipts whose instant passes that section's test |
| ReceiptBoard.SectionMembersByDay | src/App.js:55-71 | each of the five named sections holds exactly the filtered receipts whose calendar day lies in that section's range of days |
| ReceiptBoard.TodaySection | src/App.js:56-57 | Today holds exactly the filtered receipts dated at any time today, and such a receipt is in no other section |
| ReceiptBoard.YesterdayIsListedTwice | src/App.js:59-63 | a receipt dated yesterday is listed under Yesterday and under Previous 7 Days, and under no other section |
| ReceiptBoard.SevenDaysBack | src/App.js:62-66 | a receipt dated at any time seven days ago is in Previous 7 Days and not in Previous 30 Days |
| ReceiptBoard.ThirtyDaysBack | src/App.js:65-70 | a receipt dated at any time thirty days ago is in Previous 30 Days and not in Older than 30 Days |
| ReceiptBoard.RollingWindowsDisjoint | src/App.js:62-70 | no receipt is in two of Previous 7 Days, Previous 30 Days and Older than 30 Days |
| ReceiptBoard.ShownIff | src/App.js:55-72 | a receipt appears in some section exactly when it survived the search, its date parses and it is before the start of tomorrow |
| ReceiptBoard.PlacedOnceOutsideYesterday | src/App.js:55-71 | a shown receipt lies in exactly one of Today, Previous 7 Days, Previous 30 Days and Older than 30 Days |
| ReceiptBoard.UnknownSectionIsEmpty | src/App.js:72 | a name other than the five headings yields the empty list |
| ReceiptBoard.BoardShape | src/App.js:47-53 | the page shows the five headings in their fixed order, every one of them even when all are empty |
| ReceiptBoard.BoardEntries | src/App.js:93-100 | the i-th rendered heading carries `filterReceiptsBySection` of that heading |
| ReceiptBoard.SectionsFollowStoredOrder | src/App.js:41-71 | every section is a subsequence of the stored list, and newest first when the stored list is |
| ReceiptBoard.ReceiptView.constructor | src/App.js:10-13 | the page starts with no receipts and an empty query |
| ReceiptBoard.ReceiptView.HandleSearch | src/App.js:37-39 | the stored query becomes the lower-cased input and the receipts are untouched |
| ReceiptBoard.ReceiptView.ReceiveReceipts | src/App.js:21-31 | after a fetch the stored list is the response sorted in place (newest first by instant, a stable permutation); a failed fetch changes nothing |
| ReceiptBoard.ReceiptView.Sections | src/App.js:41-100 | what the page renders: the board of the stored receipts filtered by the stored query |
| ReceiptBoard.RenderedSectionsNewestFirst | src/App.js:93-100 | every rendered section is newest first |
| Sender.SenderInfo | app.py:44-61 | the name of the last bracketed `From` header, or else what the snippet search finds, together with the address of the last `From` header; the same in backend/app.py:41-58 |
| Sender.ExtractSenderInfo | app.py:44-61 | the header loop and the fallback return exactly the name and address that the `From` headers and the snippet search determine; the same in backend/app.py:41-58 |
| Sender.BracketedSplit | app.py:50-52 | a bracketed value is its pre-`<` text, `<`, and the rest; the name holds no `<`, the address neither bracket, and neither has surrounding whitespace; the same in backend/app.py:47-49 |
| Sender.UnbracketedKeepsName | app.py:53-54 | a `From` value lacking a bracket sets the address to the whole stripped value and leaves the name as it was |
| Sender.LastFromSetsEmail | app.py:47-54 | the address comes from the last `From` header |
| Sender.LastBracketedSetsName | app.py:47-52 | the name comes from the last bracketed `From` header, whatever unbracketed ones follow |
| Sender.NoFromNoEmail | app.py:45-48 | the address is `None` exactly when no header is a `From` header; the same in backend/app.py:42-45 |
| Sender.NoBracketedNoName | app.py:45-52 | the headers leave the name `None` exactly when no `From` header is bracketed |
| Sender.OtherHeadersIgnored | app.py:48 | a header that is not `From` changes neither name nor address |
| Sender.FromMatchesAnyCase | app.py:48 | `From`, `FROM` and `from` are all `From` headers; `Sender` is not |
| Sender.FallbackOnlyWithoutName | app.py:56-59 | once a header gave a name, the snippet and its search make no difference; the same in backend/app.py:53-56 |
| Sender.EmptyNameNoFallback | app.py:50-59 | `From: <x@y>` gives the empty name and address `x@y`, and the snippet is not searched |
| Sender.AddressOfBareBrackets | app.py:52 | the address of `<x@y>` is `x@y` |
| MailDate.ParseStamp | app.py:122 | a header that parses yields a valid calendar date, clock and offset |
| MailDate.Short | app.py:123 | `strftime('%d %b %Y')`: the day in two digits, the month name and the year in four digits, separated by blanks |
| MailDate.Reformat | app.py:121-125 | the short form of the stamp when the header parses, and the header itself otherwise; the same in backend/app.py:100-104 |
| MailDate.ReformatCases | app.py:121-125 | an unparseable header is kept verbatim; a parsed one becomes an 11-character `DD Mon YYYY` that holds its day, month name and year; the same in backend/app.py:100-104 |
| MailDate.ShortReadsBack | app.py:123 | `%d %b %Y` is two digits of the day, a blank, the month name, a blank and four digits of the year |
| MailDate.ParseDateText | app.py:122 | a header written in the format parses back to its stamp, with whatever follows the offset read as part of it |
| MailDate.ParseLayout | app.py:121-123 | a header in the format round-trips, and is reformatted to the short form of its stamp |
| MailDate.CommentKeepsHeader | app.py:121-125 | a header followed by a blank and more (such as ` (PDT)`) fails the parse and is kept verbatim |
| MailDate.ReformatExample | app.py:121-125 | `Fri, 18 Oct 2024 ...` becomes `18 Oct 2024`, and the same header with ` (PDT)` is kept as it is |
| MailDate.ExampleShort | app.py:123 | the example stamp is written `18 Oct 2024` |
| Mail.DateHeader | app.py:120 | the value of the first header whose lower-cased name is `date`, or none when there is no such header; the same in backend/app.py:98 |
| Mail.FirstDateWins | app.py:120 | the date is that of the first `Date` header, matched in any case |
| Mail.NoDateIff | app.py:120 | there is no date exactly when no header is a `Date` header |
| Mail.ScanParts | app.py:132-145 | the parts loop leaves the data of the last `text/plain` part, the total of the last PDF attachment, and whether there was a PDF attachment; the same in backend/app.py:109-117 |
| Mail.LastPlainWins | app.py:134-135 | the body data is that of the last `text/plain` part, even an empty one |
| Mail.LastPdfWins | app.py:136-142 | the PDF total is what the last PDF attachment yields, even none; the same in backend/app.py:113-117 |
| Mail.NoPdfNoTotal | app.py:130-142 | without a PDF attachment there is no PDF total |
| Mail.Content | app.py:147-154 | the decoded message text, or the placeholder `No readable content found.` when there is no body data |
| Mail.Total | app.py:147-150 | the PDF total, unless it is falsy and there is body data, in which case the amount found in the decoded text; the same in backend/app.py:119-122 |
| Mail.BuildReceipt | app.py:164-172 | the receipt record: the given date and PDF flag, the Gmail link of the id, the sender, the snippet, and the total or `N/A`; the same in backend/app.py:127-134 |
| Mail.TotalChoice | app.py:147-150 | a truthy PDF total is kept whatever the text says; otherwise the text's amount is taken; without text the PDF total stays; the same in backend/app.py:119-122 |
| Mail.BodyHidesParts | app.py:132 | a message whose body has data never looks at its parts and has no PDF attachment |
| Mail.NoContentHasNoKeyword | app.py:154-156 | the placeholder text contains none of the four keywords |
| Mail.Collect | app.py:113-172 | the loop over the messages: the receipts the rule keeps, in message order, or the failure of the first message the rule fails on; the same in backend/app.py:92-134 |
| Mail.Finish | app.py:174 | the collected receipts without those whose total is `N/A`, in order, or the loop's failure; the same in backend/app.py:136 |
| Mail.CollectOkIff | app.py:114-120 | the loop fails exactly when some message fails |
| Mail.CollectFirstFault | app.py:114-120 | the failure reported is that of the first failing message |
| Mail.CollectMember | app.py:164-172 | a receipt is collected exactly when some message decides on it |
| Mail.CollectBound | app.py:164-172 | each message adds at most one receipt |
| Mail.CollectAppend | app.py:114-172 | two batches of messages give the first batch's receipts followed by the second's |
| Mail.FinishKeepsTotals | app.py:174 | the final filter keeps, in order, exactly the receipts whose total is not `N/A` |
| Mail.HandlerResult | app.py:114-174 | for any per-message rule that fails exactly on a message without a `Date` header: the handler fails exactly when some message has none; otherwise it returns no `N/A` total, no more receipts than messages, and exactly the kept receipts with a total; the same in backend/app.py:93-136 |
| Mail.HandlerInOrder | app.py:114-174 | for any per-message rule, two batches of messages handled one after the other give the first batch's receipts followed by the second's; the same in backend/app.py:93-136 |
| Mail.KeywordsLowerCase | app.py:156 | lower-casing the keywords changes none of them |
| AppReceipts.Decide | app.py:115-172 | the per-message rule: a failure without a `Date` header; otherwise a receipt when a keyword is in the text, `receipt` is in the snippet, or there is a PDF attachment, and nothing else |
| AppReceipts.ProcessMessage | app.py:115-172 | the loop body, statement by statement, computes the handler's decision for the message |
| AppReceipts.GetReceipts | app.py:113-174 | the handler returns the fold of the per-message decisions followed by the `N/A` filter |
| AppReceipts.KeepRule | app.py:156-158 | a message fails exactly without a `Date` header, and is kept exactly for a keyword in its text, `receipt` in its snippet, or a PDF attachment |
| AppReceipts.PdfAttachmentKept | app.py:136-158 | a message with a PDF attachment is kept and marked `has_pdf`, whatever its text and snippet |
| AppReceipts.KeywordInTextKept | app.py:156-158 | a keyword found in the decoded text keeps the message |
| AppReceipts.ReceiptFields | app.py:164-172 | a kept receipt carries the reformatted date, the PDF flag, the Gmail link made of the fixed prefix and the id, the sender, the snippet, and the total or `N/A` |
| AppReceipts.ReturnedReceipts | app.py:164-174 | success exactly when every message has a `Date` header; then the result has no `N/A` total, no more receipts than messages, and holds exactly the kept receipts with a total |
| AppReceipts.ReceiptsInMessageOrder | app.py:174 | receipts come back in message order |
| AppReceipts.SavedPdfName | app.py:76-82 | the saved name always ends in `.pdf` |
| AppReceipts.SavedEmailName | app.py:78-79 | with the handler's arguments an id without `.pdf` gives `<id>_<id>.pdf`, whatever the clock |
| AppReceipts.SavedNameWithoutId | app.py:80-82 | without an id, or with an empty one, the time stamp takes its place after the `.pdf`-free name |
| BackendReceipts.Decide | backend/app.py:94-134 | the per-message rule: a failure without a `Date` header; otherwise a receipt without `has_pdf` when a keyword or `receipt` is in the snippet, and nothing else |
| BackendReceipts.ProcessMessage | backend/app.py:94-134 | the loop body computes the handler's decision for the message |
| BackendReceipts.GetReceipts | backend/app.py:92-136 | the handler returns the fold of the per-message decisions followed by the `N/A` filter |
| BackendReceipts.KeepRule | backend/app.py:124-126 | a message fails exactly without a `Date` header, and is kept exactly for a keyword or `receipt` in its snippet |
| BackendReceipts.SnippetOnly | backend/app.py:124-126 | two messages with the same headers and snippet are kept or dropped alike, whatever their bodies, parts and helpers |
| BackendReceipts.ReceiptFields | backend/app.py:127-134 | a kept receipt carries the reformatted date, no `has_pdf` entry, the link, the sender, the snippet, and the total or `N/A` |
| BackendReceipts.ReturnedReceipts | backend/app.py:127-136 | success exactly when every message has a `Date` header; then no `N/A` total, no more receipts than messages, and exactly the kept receipts with a total |
| BackendReceipts.ReceiptsInMessageOrder | backend/app.py:136 | receipts come back in message order |
| BackendReceipts.SameReceiptWhenBothKeep | backend/app.py:124-134 | both handlers fail on the same messages, and a message both keep gives the same receipt apart from `has_pdf` |
| BackendReceipts.PdfOnlyDroppedHere | backend/app.py:124-126 | a message kept only for its PDF attachment by `app.py` is dropped here |
| BackendReceipts.TextKeywordDroppedHere | backend/app.py:124-126 | a message whose keyword is in its text but not its snippet is kept by `app.py` and dropped here |
| BackendReceipts.SnippetKeywordKeptHere | backend/app.py:124-126 | a message whose keyword is only in its snippet, without a PDF attachment, is kept here and dropped by `app.py` |

## Left out

- Gmail OAuth, the Gmail API calls, Flask routing, `jsonify` and CORS are network and framework plumbing. The messages arrive as a list of already-fetched `Message` values.
- `decode_base64` is a parameter (`Ops.decode`): base64 decoding is not modelled, and its errors on malformed data are not modelled either.
- `extract_total_from_text` and the "at Somebody" snippet search are parameters (`Ops.extractTotal`, `Ops.atName`), because their regular expressions are not modelled.
- PDF handling:
  - downloading attachments, `save_pdf_attachment`, `pdfplumber` and `pdfkit` are left out;
  - the text an attachment yields is a field of its part;
  - the HTML-to-PDF save inside the kept branch (`app.py:159-162`) is left out, including its failure: `pdfkit.from_string` (`app.py:85`) can raise, and that aborts the whole request;
  - the `pdf_files_to_delete` list and its cleanup loop (`app.py:176-179`) are file effects.
- `print` and `console.log` calls produce only output.
- The clock:
  - `dayjs()` is the parameter `today`;
  - `time.strftime` in `save_email_as_pdf` is the parameter `now`.
- Parsing receipt dates on the page (`dayjs(date)`, `new Date(date)`) is not modelled. Each receipt carries the instant it parses to, in milliseconds, or `None`. That takes `dayjs(date)` and `new Date(date)` to agree. They do on the two forms the back ends return, `DD Mon YYYY` and a raw RFC 5322 header. They do not on an ISO date-only string, which `dayjs` reads in local time and `Date` in UTC. Instants are counted in local time with every day 86,400,000 ms long: time zones and daylight saving are not modelled.
- ReceiptBoard.SortNewestFirst: requires every date to parse. The comparator's behaviour on `NaN` (`src/App.js:25`) is not modelled.
- ReceiptBoard.ReceiptView.ReceiveReceipts: the same requirement, for the same reason.
- React state, the modal, rendering and styling in `src/App.js` are left out, as is all of `src/Login.js`.
- Lower-casing is modelled for ASCII letters only. Python's `str.lower` and JavaScript's `toLowerCase` also map non-ASCII letters.
- MailDate.ParseStamp:
  - `%d`, `%H`, `%M`, `%S`, `%Y` and the hours, minutes, seconds and fraction of `%z` accept only ASCII digits, where Python accepts any Unicode decimal digit;
  - month and weekday names are those of the C locale.
- MailDate.Short: writes the year zero-padded to four digits. That is what `strftime('%Y')` prints for years 1000-9999; for earlier years some C libraries (glibc) print fewer digits, which is not modelled.
- A `KeyError` is not modelled:
  - on a missing `snippet` at `app.py:158`;
  - on a missing `filename` or `body` of a part.

  The model treats those fields as always present.
- Gmail returns the messages in its own order (`messages.list`), so the order of `messages` is an input.
