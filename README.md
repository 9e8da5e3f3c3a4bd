# SnakeOil drop box — a Dafny model

SnakeOil is an SMTP sink that forwards every message it receives to a chat
channel (`#general`). For each message, `process_message` does the following:

- It parses the message into a MIME tree.
- `get_parts` picks out the HTML body, the plain-text body, the named
  attachments and the `Reply-To` value of the last part walked (empty when
  that part has none).
- It collects links: from the HTML body (`get_links_html`) or, failing that,
  from the plain-text body (`get_links_text`).
- It posts a summary text.
- It posts every link.
- It writes every attachment to disk, then uploads each one with its MD5
  digest and removes it.
- It writes the raw message to `<subject>.msg`, uploads it and removes it.

Any exception ends the handler. It prints the exception and returns normally.

The model has three layers.

- **Value layer.** One module per concern gives a pure definition of what the
  handler does:
  - `Mime`: headers and the walk over the tree.
  - `Dict`: Python's insertion-ordered dict.
  - `PartClassifier`: the loop of `get_parts` as a left fold.
  - `HtmlLinks`: the `^http.*://` href filter.
  - `TextLinks`: `re.findall(r'https?://[A-Za-z0-9\.\/]+', …)` as a leftmost-longest scanner, proved equal to the unique findall decomposition.
  - `SummaryText`: the summary string.
  - `Forwarding`: the ordered list of calls for one message.
  - `Actions`: running a call list when any call may raise.
  - `Pipeline`: `process_message` end to end.
- **Imperative layer.** `Server.SnakeOil` is a class whose `effects` field is
  the history of collaborator calls. Its methods follow the Python methods
  loop by loop, and each one is proved to leave exactly the history that the
  value layer predicts.
- **Properties.** Lemmas about the value layer prove several things:
  - Which part fills which slot.
  - That the link filters match their regular expressions.
  - That the counts can be read back from the summary.
  - That a run stops at the first exception.
  - That, as written, the handler makes no call at all on a message whose only
    body is plain text, and otherwise posts the summary first.
  - That in a full run every file written is removed, while a failed upload
    leaves files behind.
  - Two concrete end-to-end scenarios.

Collaborators are abstract:

- **Chat service and disk.** Each call becomes an `Action` value.
- **The outside world.** A set `failing` of history positions whose call raises.
- **Always-failing calls.** Writing `None` to a file, or hashing `None`,
  raises whatever the world does.
- **HTML parser.** A function from bytes to the anchors it reports.
- **MIME parser.** Its output tree is the input.

## Model

| member | source | states |
|---|---|---|
| Mime.Lookup | snakeoil.py:39 | the value of the first header whose name equals the wanted one ignoring ASCII case; None exactly when no header has that name |
| Mime.Walk | snakeoil.py:38 | the walk starts with the message itself |
| Mime.WalkLength | snakeoil.py:38 | the walk visits every node of the tree exactly once |
| Mime.WalkChildBlock | snakeoil.py:38 | each child's own walk is a contiguous block of the parent's walk, children in order (pre-order) |
| Mime.WalkAllSplit | snakeoil.py:38 | the walk of a list of children is the walks of the ones before k, of child k, and of the ones after k, concatenated |
| Dict.Keys | snakeoil.py:60 | `keys()` lists one key per entry, in entry order |
| Dict.Lookup | snakeoil.py:61 | `d.get(k)` finds an entry exactly when k is a key, and the value found is that entry's; at line 61 the key always comes from `keys()`, so `d[k]` never raises there |
| Dict.Put | snakeoil.py:43 | assignment keeps the key order when the key is present and appends the key at the end otherwise |
| Dict.PutDistinct | snakeoil.py:43 | assignment never makes a key occur twice |
| Dict.PutLookup | snakeoil.py:43 | after `d[k] = v`, `d[k]` is v and every other key reads as before |
| PartClassifier.ClassifyExtend | snakeoil.py:38-48 | running the loop over one more part is one more iteration of its body |
| PartClassifier.StepBodySlot | snakeoil.py:42-48 | one iteration sets a body slot exactly when the part has no filename and has that slot's content type |
| PartClassifier.StepAttachments | snakeoil.py:42-44 | one iteration files the part under its filename when it has a non-empty one, and leaves the attachments alone otherwise |
| PartClassifier.StepLookup | snakeoil.py:42-43 | after one iteration, the part's filename reads as its payload and every other name reads as before |
| PartClassifier.BodyAbsent | snakeoil.py:35-48 | a body slot stays None when no part without a filename has its content type |
| PartClassifier.BodyIsLastCandidate | snakeoil.py:45-48 | a body slot holds the payload of the last part that has no filename and the slot's exact content type ("text/html" or "text/text") |
| PartClassifier.AttachmentKeys | snakeoil.py:37-49 | the attachment keys are the non-empty filenames in order of first occurrence, each exactly once |
| PartClassifier.AttachmentIsLastPayload | snakeoil.py:42-43 | a filename maps to the payload of the last part carrying it, and only filenames that occur are keys |
| PartClassifier.ReplyToIsLastPart | snakeoil.py:39 | the Reply-To entry is that of the last part walked (empty when that part has none) |
| HtmlLinks.SeparatorFromSound | snakeoil.py:95 | the separator search succeeds only on a `://` with no newline before it |
| HtmlLinks.SeparatorFromComplete | snakeoil.py:95 | every `://` reachable without crossing a newline is found by the search |
| HtmlLinks.HrefMatchesPattern | snakeoil.py:95 | the href filter accepts a string exactly when `re.search('^http.*://')` matches it |
| HtmlLinks.HrefFilterAppend | snakeoil.py:95-97 | filtering a document is filtering its two parts and joining the results: document order is kept |
| HtmlLinks.HrefFilterMembers | snakeoil.py:95-97 | a link is returned exactly when some anchor has it as an href and the filter accepts it |
| TextLinks.SchemeEnd | snakeoil.py:110 | the scheme `https?://` found at a position ends inside the text |
| TextLinks.RunEnd | snakeoil.py:110 | the run of URL characters `[A-Za-z0-9./]` from a position stops at the end of the text or at a non-URL character |
| TextLinks.RunEndMaximal | snakeoil.py:110 | no run of URL characters from that position is longer |
| TextLinks.SchemesExclusive | snakeoil.py:110 | at one position the text cannot start with both "https://" and "http://" |
| TextLinks.MatchAt | snakeoil.py:110 | a match at a position is non-empty and ends inside the text |
| TextLinks.MatchAtIsLongest | snakeoil.py:110 | the match at a position is absent exactly when the regex matches nothing there, and otherwise it is the longest match there |
| TextLinks.Scan | snakeoil.py:110-111 | the spans found lie inside the text, after the start position, and are non-empty |
| TextLinks.ScanIsFindAll | snakeoil.py:110-111 | the scan's spans are a findall decomposition: each span is the longest match at its start, and no match starts in any gap |
| TextLinks.FindAllUnique | snakeoil.py:110-111 | the findall decomposition is unique: any decomposition equals the scan's |
| TextLinks.GetLinksText | snakeoil.py:101-112 | every link returned is a scheme followed by at least one URL character and nothing else |
| TextLinks.GetLinksTextIsFindAll | snakeoil.py:101-112 | the links are the texts of the findall decomposition, and of no other list |
| TextLinks.NoMatchNoLinks | snakeoil.py:110-111 | no link is returned exactly when the regex matches at no position of the text |
| SummaryText.Decimal | snakeoil.py:174-175 | `str(n)` gives at least one digit and no leading zero |
| SummaryText.DecimalRoundTrip | snakeoil.py:174-175 | reading the digits of `str(n)` back gives n |
| SummaryText.SplitJoin | snakeoil.py:159 | when no recipient has a comma, `','.join` of the recipients splits back into them |
| SummaryText.SummaryReportsCounts | snakeoil.py:169-175 | whatever the header fields hold, the numbers that end the last two lines of msg_text are the link count and the attachment count |
| Actions.RunIsPrefix | snakeoil.py:155-186 | the calls made are a prefix of the plan, and all of it when nothing raised |
| Actions.RunSucceeds | snakeoil.py:155-186 | the run ends without an error exactly when no call of the plan raises |
| Actions.RunStopsAtFirstFailure | snakeoil.py:155-186 | an error is the last call made; that call raised and every call before it went through |
| Actions.RunFailsAt | snakeoil.py:155-186 | when the first call that raises is at k, the calls made are those up to k and the error is call k |
| Actions.RunAppend | snakeoil.py:155-186 | running two plans in a row is running the first and, only when it went through, the second from where it ended |
| Actions.RunThen | snakeoil.py:155-186 | after a plan that went through, the next one runs from where it ended |
| Actions.RunStopsEarly | snakeoil.py:155-186 | nothing after a plan that failed is run |
| Actions.RunErrorStops | snakeoil.py:155-186 | once a prefix of the plan has failed, the rest is never started |
| Forwarding.LinkPosts | snakeoil.py:121-123 | one post to `#general` per link, in list order |
| Forwarding.Writes | snakeoil.py:60-63 | one write per attachment, in key order, of that attachment's payload under its name |
| Forwarding.UploadsAndRemovesAt | snakeoil.py:74-81 | the calls for attachment k: its upload with the digest of its payload, then the removal of its file |
| Forwarding.LinkBlock | snakeoil.py:179-180 | as many calls as links; none when there are no links |
| Forwarding.AttachmentBlock | snakeoil.py:181-183 | three calls per attachment; none when there are no attachments |
| Forwarding.PlanPosts | snakeoil.py:169-180 | the plan opens with the summary post, then posts every link in order |
| Forwarding.PlanWrites | snakeoil.py:181-182 | after the links, the plan writes every attachment in key order |
| Forwarding.PlanUploadAt | snakeoil.py:183 | after the writes, the plan uploads attachment k and then removes its file, for each k in key order |
| Forwarding.PlanEmailTail | snakeoil.py:184 | the plan closes by writing, uploading and removing the raw message file |
| Forwarding.PlanLayout | snakeoil.py:176-184 | the plan has the layout: summary, link posts, writes, upload/removal pairs, raw-message calls |
| Forwarding.LayoutUploadRegion | snakeoil.py:74-81 | in the upload region, even offsets are uploads and odd offsets remove the matching attachment's file |
| Forwarding.LayoutRegions | snakeoil.py:176-184 | in a plan with that layout, the kind of call at every position |
| Forwarding.PlanRegions | snakeoil.py:176-184 | in the plan itself, the kind of call at every position |
| Forwarding.LayoutCleansUp | snakeoil.py:53-139 | in a plan with that layout, every write is followed by a removal of the same path |
| Forwarding.PlanCleansUp | snakeoil.py:176-184 | when every call goes through, every file written is later removed: nothing stays on disk |
| Forwarding.LayoutNoRemove | snakeoil.py:74-81 | up to the upload of attachment k, no call removes the file of attachment k or of any later one |
| Forwarding.NoRemoveBeforeUpload | snakeoil.py:74-81 | the same, for the plan itself |
| Forwarding.FailedRunHolds | snakeoil.py:155-186 | a run that failed at call u has made the calls up to u and none after it |
| Forwarding.UploadFailureLeavesFiles | snakeoil.py:76-81 | when the upload of attachment k raises, the files of attachment k and of every later one have been written and are never removed |
| Pipeline.Latin1 | snakeoil.py:167 | decoding keeps one character per byte, with the same code |
| Pipeline.HtmlTakesPrecedence | snakeoil.py:164-167 | when the HTML body is truthy, the plain-text body plays no part in the links |
| Pipeline.SelectedLinksAreHrefs | snakeoil.py:164-167 | as written, links come from the HTML body only, and are exactly its accepted hrefs |
| Pipeline.TextOnlyMakesNoCall | snakeoil.py:166-167 | as written, a message with a plain-text body and no HTML body makes no call and prints the TypeError |
| Pipeline.LinkNoteAsWritten | snakeoil.py:166-167 | as written, the one-part note holding "http://x.io" gets nothing forwarded |
| Pipeline.ShortLinkFound | snakeoil.py:110-111 | the scanner finds "http://x.io" whole |
| Pipeline.LinkNoteDecoded | snakeoil.py:166-167 | with the body decoded, the note's link is found |
| Pipeline.SummaryComesFirst | snakeoil.py:169-177 | with the plain-text body decoded, the first call is always the summary post to `#general`, and its text reports the link and attachment counts |
| Pipeline.ProcessCompletes | snakeoil.py:176-184 | with the plain-text body decoded, when no call raises, every planned call is made in order and nothing is printed |
| Pipeline.AsWrittenAgrees | snakeoil.py:164-167 | on every message that is not text-only (an HTML body, or no plain-text body), the handler as written picks the same links and behaves exactly as the decoded one |
| Pipeline.SummaryComesFirstAsWritten | snakeoil.py:163-177 | as written, the handler makes a call exactly when the message is not text-only, and its first call is then the summary post to `#general` reporting the link and attachment counts |
| Pipeline.ProcessCompletesAsWritten | snakeoil.py:163-186 | as written, nothing is printed exactly when the message is not text-only and no planned call raises, and then every planned call has been made in order |
| Pipeline.DecodedTextLinksPosted | snakeoil.py:166-180 | with the body decoded and no call raising, a plain-text message posts exactly the scanned links, in order, right after the summary |
| Pipeline.InvoiceParts | snakeoil.py:25-50 | the invoice message has one HTML body, no plain-text body, empty Reply-To and one attachment "doc.pdf" |
| Pipeline.InvoiceLink | snakeoil.py:95 | "https://pay.example/1" passes the href filter |
| Pipeline.InvoiceLinks | snakeoil.py:164-165 | the invoice's links are its one accepted href, both as written and decoded |
| Pipeline.InvoicePlan | snakeoil.py:169-184 | the invoice's plan makes the eight calls of the scenario, in order |
| Pipeline.InvoiceCallsRun | snakeoil.py:155-186 | without faults from the world, all eight calls go through |
| Pipeline.InvoiceScenario | snakeoil.py:142-187 | the invoice gets the summary (one link, one attachment), the link, the attachment written, uploaded with its digest and removed, then "Invoice.msg" written, uploaded and removed |
| Pipeline.NoFaultsRunAll | snakeoil.py:155-186 | a plan that writes and hashes only present data runs to the end when the world raises nothing |
| Pipeline.EmptyNoteScenario | snakeoil.py:142-187 | an empty plain-text body is not scanned; the message gets the summary with zero counts and its raw upload under the subject's name, or "None.msg" without a Subject |
| Server.SnakeOil.constructor | snakeoil.py:13-22 | a new handler has made no call yet |
| Server.SnakeOil.Call | snakeoil.py:176-177 | a collaborator call is appended to the history; it goes through exactly when it does not raise |
| Server.SnakeOil.GetParts | snakeoil.py:25-50 | the loop over the walk returns the fold of one iteration per part |
| Server.SnakeOil.Visit | snakeoil.py:39-48 | the loop body updates the result by one iteration for the part |
| Server.SnakeOil.GetLinksHtml | snakeoil.py:84-98 | the links collected are the filtered hrefs of the parser's anchors, in document order |
| Server.SnakeOil.UploadLinks | snakeoil.py:115-123 | the history grows by the link posts up to and including the first that raises, and the error is that post |
| Server.SnakeOil.WriteAttachments | snakeoil.py:53-64 | the history grows by the writes up to and including the first that raises |
| Server.SnakeOil.UploadAttachment | snakeoil.py:75-81 | one iteration: the upload, then the removal only if the upload went through |
| Server.SnakeOil.UploadAttachments | snakeoil.py:67-81 | the history grows by the upload/removal pairs up to and including the first call that raises |
| Server.SnakeOil.UploadEmail | snakeoil.py:126-139 | write, upload and remove of `<subject>.msg`, stopping at the first that raises |
| Server.SnakeOil.LinkStage | snakeoil.py:179-180 | links are posted only when there are some |
| Server.SnakeOil.AttachmentStage | snakeoil.py:181-183 | with attachments: all writes, then all uploads, an exception ending both |
| Server.SnakeOil.Forward | snakeoil.py:176-184 | the history grows by the run of the whole plan from the summary to the raw-message removal, and the error is the run's |
| Server.SnakeOil.ProcessMessage | snakeoil.py:142-187 | the handler as written: its history and what it prints are those of the value-level handler |
| Server.SnakeOil.ProcessMessageDecoded | snakeoil.py:164-167 | the handler with the plain-text body decoded: the same agreement with the corrected value-level handler |

## Left out

- The SMTP server, `asyncore`, the constructor's Slack client and the `__main__` block: I/O outside the handler's logic.
- The network and the disk: each call is an `Action`, and whether it raises comes from the `failing` set of history positions.
- Calls that raise before they reach a collaborator are recorded as attempted. This covers `hashlib.md5(None)` and `f.write(None)`, which raise `TypeError`. Such a call is the last entry of the history and also the error. The model does not separate it from a collaborator call that raised.
- `open(a, 'wb')` is folded into the write: opening and writing fail or succeed together.
- MD5 itself: an upload's comment records the data it digests (`Md5Of`), not the hex digest.
- `email.message_from_bytes`: the parsed tree is the input, and `get_filename`, `get_content_type` and `get_payload(decode=True)` are its fields.
- BeautifulSoup: the parser is a function from the HTML body to the anchors it reports. Only the href test is modelled.
- The peer tuple: it is given already formatted as text.
- `print(e)`: the printed exception is returned as the error.
- Mime.Lookup: folds case for ASCII letters only, not full Unicode `lower()`.
- Exceptions other than the ones modelled are out of scope. This includes a Subject containing a path separator, which would make `open` fail; the `failing` set can stand for it.

## Behaviour of the code worth knowing

- After a failed upload, the attachment's file is not removed (lines 76-81). `Forwarding.UploadFailureLeavesFiles` proves it stays on disk.
- `upload_email` writes and removes `<subject>.msg` around the upload (lines 133-139). Both scenarios include those calls.
- The `Reply-To` entry is overwritten on every part walked (line 39), so it is that of the last part, usually a leaf without headers; `PartClassifier.ReplyToIsLastPart` states it.
- Every part with a non-empty filename is an attachment, whatever its content type (lines 42-44).
- The href filter is `^http.*://` (line 95): any scheme that starts with `http` and contains `://` later on the same line passes.
- The content type checked for the plain-text body is `"text/text"` (line 47). It is not `"text/plain"`.

## Findings

| source | as written | input that shows it | evidently intended | confidence | as-written member | corrected member |
|---|---|---|---|---|---|---|
| snakeoil.py:166-167 | `get_links_text` receives `parts['body_text']`, the bytes of `get_payload(decode=True)`, and calls `re.findall` with a str pattern on them, which raises `TypeError`; the handler prints it and forwards nothing, not even the summary | a one-part "text/text" message whose body is the bytes of `http://x.io` (`Pipeline.LinkNote`) | decode the body before scanning, so the link is found and the message is forwarded | not executed | Pipeline.LinkNoteAsWritten | Pipeline.LinkNoteDecoded |
