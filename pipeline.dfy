/**
 * process_message as a function of its inputs: classify the parts, pick the
 * links, render the summary, then run the calls in order until one raises.
 * Any exception ends the handler, which prints it and returns normally.
 */
module Pipeline {
  import opened Wrappers
  import opened Mime
  import opened Actions
  import opened PartClassifier
  import HtmlLinks
  import TextLinks
  import SummaryText
  import Forwarding

  /** `if x:` on an optional byte string: present and not empty. */
  predicate Truthy(o: Option<Bytes>) {
    o.Some? && |o.value| > 0
  }

  /** The arguments of process_message; the peer address comes already rendered as text. */
  datatype Envelope = Envelope(peer: string, mailfrom: string, rcpttos: seq<string>, data: Bytes)

  /** The HTML parser: the anchors of a document, in document order. */
  type Soup = Bytes -> seq<HtmlLinks.Anchor>

  /**
   * The links of the message, as written: the HTML body's accepted hrefs when
   * there is an HTML body, else the plain-text scanner on the plain-text body,
   * which receives bytes and raises before it scans anything.
   */
  function SelectLinks(parts: Parts, soup: Soup): Result<seq<string>, Error> {
    if Truthy(parts.bodyHtml) then Ok(HtmlLinks.HrefFilter(soup(parts.bodyHtml.value)))
    else if Truthy(parts.bodyText) then Err(StringPatternOnBytes)
    else Ok([])
  }

  /** The bytes of a payload read one character per byte (ISO-8859-1). */
  function Latin1(b: Bytes): (s: string)
    ensures |s| == |b|
    ensures forall i :: 0 <= i < |b| ==> s[i] as int == b[i] as int
  {
    seq(|b|, i requires 0 <= i < |b| => b[i] as int as char)
  }

  /** The link selection with the plain-text body decoded before it is scanned. */
  function SelectLinksDecoded(parts: Parts, soup: Soup): seq<string> {
    if Truthy(parts.bodyHtml) then HtmlLinks.HrefFilter(soup(parts.bodyHtml.value))
    else if Truthy(parts.bodyText) then TextLinks.GetLinksText(Latin1(parts.bodyText.value))
    else []
  }

  /** `e['Subject']`. */
  function Subject(e: Part): Option<string> {
    Lookup(e.headers, "Subject")
  }

  /** msg_text for the message. */
  function MessageSummary(env: Envelope, e: Part, parts: Parts, links: seq<string>): string {
    SummaryText.Summary(env.peer, env.mailfrom, env.rcpttos, SummaryText.RenderSubject(Subject(e)),
                        parts.replyTo, |links|, |parts.attachments|)
  }

  /** The calls process_message makes once the links are known. */
  function MessagePlan(env: Envelope, e: Part, parts: Parts, links: seq<string>): seq<Action> {
    Forwarding.Plan(MessageSummary(env, e, parts, links), links, parts.attachments, env.data, Subject(e))
  }

  /** process_message as written, its first call at position n of the history. */
  function ProcessAsWritten(env: Envelope, e: Part, soup: Soup, n: nat, failing: set<nat>): Trace {
    var parts := Classify(Walk(e));
    match SelectLinks(parts, soup)
    case Err(err) => Trace([], Some(err))
    case Ok(links) => Run(MessagePlan(env, e, parts, links), n, failing)
  }

  /** process_message with the plain-text body decoded before its links are scanned. */
  function Process(env: Envelope, e: Part, soup: Soup, n: nat, failing: set<nat>): Trace {
    var parts := Classify(Walk(e));
    Run(MessagePlan(env, e, parts, SelectLinksDecoded(parts, soup)), n, failing)
  }

  /** The HTML body decides the links whenever it is present: the plain-text body is then ignored. */
  lemma HtmlTakesPrecedence(parts: Parts, soup: Soup, text: Option<Bytes>)
    requires Truthy(parts.bodyHtml)
    ensures SelectLinks(parts.(bodyText := text), soup) == SelectLinks(parts, soup)
    ensures SelectLinksDecoded(parts.(bodyText := text), soup) == SelectLinksDecoded(parts, soup)
  {
  }

  /**
   * As written, a link comes from the HTML body only: it is the href of one of
   * its anchors and that href passes the filter.
   */
  lemma SelectedLinksAreHrefs(parts: Parts, soup: Soup)
    ensures SelectLinks(parts, soup).Ok? && SelectLinks(parts, soup).value != [] ==>
              Truthy(parts.bodyHtml)
    ensures Truthy(parts.bodyHtml) ==>
              forall h :: h in SelectLinks(parts, soup).value <==>
                (HtmlLinks.HrefMatches(h) &&
                 exists i :: 0 <= i < |soup(parts.bodyHtml.value)| && soup(parts.bodyHtml.value)[i].href == Some(h))
  {
    if Truthy(parts.bodyHtml) {
      HtmlLinks.HrefFilterMembers(soup(parts.bodyHtml.value));
    }
  }

  /**
   * As written, a message with a plain-text body and no HTML body makes no call
   * at all: the handler prints the TypeError of the scanner and returns.
   */
  lemma TextOnlyMakesNoCall(env: Envelope, e: Part, soup: Soup, n: nat, failing: set<nat>)
    requires !Truthy(Classify(Walk(e)).bodyHtml) && Truthy(Classify(Walk(e)).bodyText)
    ensures ProcessAsWritten(env, e, soup, n, failing) == Trace([], Some(StringPatternOnBytes))
  {
  }

  /** A one-part plain-text message whose body holds a link. */
  function LinkNote(): Part {
    Part([], TextType, None, Some([104, 116, 116, 112, 58, 47, 47, 120, 46, 105, 111]), [])  // "http://x.io"
  }

  /** As written, the link of LinkNote is never posted and nothing else is either. */
  lemma LinkNoteAsWritten(env: Envelope, soup: Soup, n: nat, failing: set<nat>)
    ensures ProcessAsWritten(env, LinkNote(), soup, n, failing) == Trace([], Some(StringPatternOnBytes))
  {
    var e := LinkNote();
    assert Walk(e) == [e];
    assert Classify([e]) == Step(Initial, e);
  }

  /** The scanner finds "http://x.io" whole. */
  lemma ShortLinkFound()
    ensures TextLinks.GetLinksText("http://x.io") == ["http://x.io"]
  {
    var s := "http://x.io";
    assert !TextLinks.HasAt(s, 0, "https://") by {
      assert s[0..8][4] == ':';
    }
    assert TextLinks.HasAt(s, 0, "http://") by {
      assert s[0..7] == "http://";
    }
    assert TextLinks.RunEnd(s, 11) == 11;
    assert TextLinks.RunEnd(s, 10) == 11;
    assert TextLinks.RunEnd(s, 9) == 11;
    assert TextLinks.RunEnd(s, 8) == 11;
    assert TextLinks.RunEnd(s, 7) == 11;
    assert TextLinks.MatchAt(s, 0) == Some(11);
    assert TextLinks.Scan(s, 0) == [TextLinks.Span(0, 11)];
    assert s[0..11] == s;
  }

  /** With the body decoded, the link of LinkNote is found. */
  lemma LinkNoteDecoded(soup: Soup)
    ensures SelectLinksDecoded(Classify(Walk(LinkNote())), soup) == ["http://x.io"]
  {
    var e := LinkNote();
    assert Walk(e) == [e];
    assert Classify([e]) == Step(Initial, e);
    assert Latin1(e.payload.value) == "http://x.io";
    ShortLinkFound();
  }

  /** The first call is always the summary post, and its text reports the two counts faithfully. */
  lemma SummaryComesFirst(env: Envelope, e: Part, soup: Soup, n: nat, failing: set<nat>)
    ensures var parts := Classify(Walk(e));
            var links := SelectLinksDecoded(parts, soup);
            var t := Process(env, e, soup, n, failing);
            && |t.attempted| >= 1
            && t.attempted[0].PostMessage?
            && t.attempted[0].channel == Forwarding.Channel
            && SummaryText.ReportedCounts(t.attempted[0].text) == Some((|links|, |parts.attachments|))
  {
    var parts := Classify(Walk(e));
    var links := SelectLinksDecoded(parts, soup);
    var p := MessagePlan(env, e, parts, links);
    Forwarding.PlanPosts(MessageSummary(env, e, parts, links), links, parts.attachments, env.data, Subject(e));
    RunIsPrefix(p, n, failing);
    RunStopsAtFirstFailure(p, n, failing);
    var t := Run(p, n, failing);
    assert |t.attempted| >= 1 && t.attempted[0] == p[0];
    SummaryText.SummaryReportsCounts(env.peer, env.mailfrom, env.rcpttos, SummaryText.RenderSubject(Subject(e)),
                                     parts.replyTo, |links|, |parts.attachments|);
  }

  /** When no call raises, every planned call is made, in plan order, and nothing is printed. */
  lemma ProcessCompletes(env: Envelope, e: Part, soup: Soup, n: nat, failing: set<nat>)
    requires var parts := Classify(Walk(e));
             AllSucceed(MessagePlan(env, e, parts, SelectLinksDecoded(parts, soup)), n, failing)
    ensures var parts := Classify(Walk(e));
            Process(env, e, soup, n, failing) == Trace(MessagePlan(env, e, parts, SelectLinksDecoded(parts, soup)), None)
  {
    var parts := Classify(Walk(e));
    var p := MessagePlan(env, e, parts, SelectLinksDecoded(parts, soup));
    RunSucceeds(p, n, failing);
    RunIsPrefix(p, n, failing);
  }

  /** The only message on which the handler as written raises before its first call. */
  predicate TextOnly(parts: Parts) {
    !Truthy(parts.bodyHtml) && Truthy(parts.bodyText)
  }

  /** As written and with the body decoded, the handler behaves alike on every other message. */
  lemma AsWrittenAgrees(env: Envelope, e: Part, soup: Soup, n: nat, failing: set<nat>)
    ensures var parts := Classify(Walk(e));
            !TextOnly(parts) ==>
              && SelectLinks(parts, soup) == Ok(SelectLinksDecoded(parts, soup))
              && ProcessAsWritten(env, e, soup, n, failing) == Process(env, e, soup, n, failing)
  {
  }

  /**
   * As written, the handler makes a call exactly when the message is not
   * text-only, and its first call is then the summary post reporting both counts.
   */
  lemma SummaryComesFirstAsWritten(env: Envelope, e: Part, soup: Soup, n: nat, failing: set<nat>)
    ensures var parts := Classify(Walk(e));
            var t := ProcessAsWritten(env, e, soup, n, failing);
            && (|t.attempted| == 0 <==> TextOnly(parts))
            && (|t.attempted| >= 1 ==>
                  && SelectLinks(parts, soup).Ok?
                  && t.attempted[0].PostMessage?
                  && t.attempted[0].channel == Forwarding.Channel
                  && SummaryText.ReportedCounts(t.attempted[0].text)
                       == Some((|SelectLinks(parts, soup).value|, |parts.attachments|)))
  {
    AsWrittenAgrees(env, e, soup, n, failing);
    SummaryComesFirst(env, e, soup, n, failing);
  }

  /**
   * As written, the handler prints nothing exactly when the message is not
   * text-only and no planned call raises; it has then made every planned call.
   */
  lemma ProcessCompletesAsWritten(env: Envelope, e: Part, soup: Soup, n: nat, failing: set<nat>)
    ensures var parts := Classify(Walk(e));
            var t := ProcessAsWritten(env, e, soup, n, failing);
            t.error.None? <==>
              (SelectLinks(parts, soup).Ok? &&
               AllSucceed(MessagePlan(env, e, parts, SelectLinks(parts, soup).value), n, failing))
    ensures var parts := Classify(Walk(e));
            var t := ProcessAsWritten(env, e, soup, n, failing);
            t.error.None? ==> t.attempted == MessagePlan(env, e, parts, SelectLinks(parts, soup).value)
  {
    var parts := Classify(Walk(e));
    if SelectLinks(parts, soup).Ok? {
      var p := MessagePlan(env, e, parts, SelectLinks(parts, soup).value);
      RunSucceeds(p, n, failing);
      RunIsPrefix(p, n, failing);
    }
  }

  /** The message of the first scenario: an HTML body with one link and one attachment. */
  function InvoiceMessage(html: Bytes, doc: Bytes): Part {
    Part([Header("Subject", "Invoice")], "multipart/mixed", None, None,
         [Part([], HtmlType, None, Some(html), []),
          Part([], "application/pdf", Some("doc.pdf"), Some(doc), [])])
  }

  lemma InvoiceParts(html: Bytes, doc: Bytes)
    ensures Classify(Walk(InvoiceMessage(html, doc))) ==
            Parts(Some(html), None, "", [("doc.pdf", Some(doc))])
    ensures Subject(InvoiceMessage(html, doc)) == Some("Invoice")
  {
    var e := InvoiceMessage(html, doc);
    var h, a := e.children[0], e.children[1];
    assert WalkAll([a]) == [a];
    assert WalkAll(e.children) == [h] + WalkAll([a]);
    var ws := Walk(e);
    assert ws == [e, h, a];
    assert ws[..2] == [e, h] && [e, h][..1] == [e] && [e][..0] == [];
    assert Classify([e]) == Step(Initial, e);
    assert Classify([e, h]) == Step(Classify([e]), h);
    assert SameName("Subject", "Subject");
  }

  lemma InvoiceLink()
    ensures HtmlLinks.HrefMatches("https://pay.example/1")
  {
    var h := "https://pay.example/1";
    assert h[..4] == "http";
    assert h[5..8] == "://";
    assert HtmlLinks.SeparatorFrom(h, 5);
  }

  lemma InvoiceLinks(html: Bytes, doc: Bytes, soup: Soup)
    requires |html| > 0 && soup(html) == [HtmlLinks.Anchor(Some("https://pay.example/1"))]
    ensures var parts := Classify(Walk(InvoiceMessage(html, doc)));
            SelectLinks(parts, soup) == Ok(["https://pay.example/1"]) &&
            SelectLinksDecoded(parts, soup) == ["https://pay.example/1"]
  {
    InvoiceParts(html, doc);
    InvoiceLink();
    var anchors := soup(html);
    assert anchors[..0] == [] && HtmlLinks.Keeps(anchors[0]);
    assert HtmlLinks.HrefFilter(anchors[..0]) == [];
    assert HtmlLinks.HrefFilter(anchors) == ["https://pay.example/1"];
    var parts := Classify(Walk(InvoiceMessage(html, doc)));
    assert parts.bodyHtml == Some(html) && Truthy(parts.bodyHtml);
    assert SelectLinks(parts, soup) == Ok(HtmlLinks.HrefFilter(anchors));
  }

  /** The calls the first scenario expects, in order. */
  function InvoiceCalls(peer: string, doc: Bytes, data: Bytes): seq<Action> {
    [PostMessage("#general", SummaryText.Summary(peer, "a@x.com", ["b@y.com"], "Invoice", "", 1, 1))]
    + [PostMessage("#general", "https://pay.example/1")]
    + [WriteFile("doc.pdf", Some(doc)),
       UploadFile("#general", "doc.pdf", "doc.pdf", Md5Of(Some(doc))),
       RemoveFile("doc.pdf")]
    + [WriteFile("Invoice.msg", Some(data)),
       UploadFile("#general", "Invoice.msg", "Invoice.msg", NoComment),
       RemoveFile("Invoice.msg")]
  }

  /** One attachment: write it, upload it with its digest, remove it. */
  lemma OneAttachmentBlock(name: string, doc: Option<Bytes>)
    ensures Forwarding.AttachmentBlock([(name, doc)]) ==
            [WriteFile(name, doc), UploadFile("#general", name, name, Md5Of(doc)), RemoveFile(name)]
  {
    var att := [(name, doc)];
    assert att[1..] == [];
    assert Forwarding.Writes(att) == [WriteFile(name, doc)];
    assert Forwarding.UploadsAndRemoves(att) ==
           [UploadFile("#general", name, name, Md5Of(doc)), RemoveFile(name)];
  }

  /** One link: one post. */
  lemma OneLinkBlock(link: string)
    ensures Forwarding.LinkBlock([link]) == [PostMessage("#general", link)]
  {
    assert [link][1..] == [];
  }

  lemma InvoicePlan(peer: string, html: Bytes, doc: Bytes, data: Bytes)
    ensures var env := Envelope(peer, "a@x.com", ["b@y.com"], data);
            var e := InvoiceMessage(html, doc);
            MessagePlan(env, e, Classify(Walk(e)), ["https://pay.example/1"]) == InvoiceCalls(peer, doc, data)
  {
    var env := Envelope(peer, "a@x.com", ["b@y.com"], data);
    var e := InvoiceMessage(html, doc);
    InvoiceParts(html, doc);
    OneAttachmentBlock("doc.pdf", Some(doc));
    OneLinkBlock("https://pay.example/1");
    var summary := SummaryText.Summary(peer, "a@x.com", ["b@y.com"], "Invoice", "", 1, 1);
    assert MessageSummary(env, e, Classify(Walk(e)), ["https://pay.example/1"]) == summary;
    assert Forwarding.MessageFile(Some("Invoice")) == "Invoice.msg";
    assert Forwarding.EmailCalls(data, Some("Invoice")) ==
           [WriteFile("Invoice.msg", Some(data)),
            UploadFile("#general", "Invoice.msg", "Invoice.msg", NoComment),
            RemoveFile("Invoice.msg")];
  }

  /** Nothing in the first scenario's calls can fail on its own. */
  lemma InvoiceCallsRun(peer: string, doc: Bytes, data: Bytes)
    ensures Run(InvoiceCalls(peer, doc, data), 0, {}) == Trace(InvoiceCalls(peer, doc, data), None)
  {
    NoFaultsRunAll(InvoiceCalls(peer, doc, data));
  }

  /**
   * The first scenario: the summary, the link, the attachment written, uploaded
   * with its digest and removed, then the raw message written, uploaded and
   * removed as "Invoice.msg". The summary reports one link and one attachment.
   */
  lemma InvoiceScenario(peer: string, html: Bytes, doc: Bytes, data: Bytes, soup: Soup)
    requires |html| > 0 && soup(html) == [HtmlLinks.Anchor(Some("https://pay.example/1"))]
    ensures var env := Envelope(peer, "a@x.com", ["b@y.com"], data);
            && ProcessAsWritten(env, InvoiceMessage(html, doc), soup, 0, {}) == Trace(InvoiceCalls(peer, doc, data), None)
            && Process(env, InvoiceMessage(html, doc), soup, 0, {}) == Trace(InvoiceCalls(peer, doc, data), None)
  {
    var env := Envelope(peer, "a@x.com", ["b@y.com"], data);
    var e := InvoiceMessage(html, doc);
    InvoiceLinks(html, doc, soup);
    InvoicePlan(peer, html, doc, data);
    InvoiceCallsRun(peer, doc, data);
    var p := MessagePlan(env, e, Classify(Walk(e)), ["https://pay.example/1"]);
    assert ProcessAsWritten(env, e, soup, 0, {}) == Run(p, 0, {});
    assert Process(env, e, soup, 0, {}) == Run(p, 0, {});
  }

  /** Without faults from the world, a plan that writes and hashes only present data runs to the end. */
  lemma NoFaultsRunAll(p: seq<Action>)
    requires forall i :: 0 <= i < |p| ==>
               (p[i].WriteFile? ==> p[i].data.Some?) && (p[i].UploadFile? ==> p[i].comment != Md5Of(None))
    ensures Run(p, 0, {}) == Trace(p, None)
  {
    RunSucceeds(p, 0, {});
    RunIsPrefix(p, 0, {});
  }

  /** A single-part message whose plain-text body is empty. */
  function EmptyNote(hs: seq<Header>): Part {
    Part(hs, TextType, None, Some([]), [])
  }

  /**
   * The second scenario: an empty body is not scanned (it is falsy), so the
   * message gets the summary with zero counts and the raw upload, named after
   * the subject, or "None.msg" when there is no Subject header.
   */
  lemma EmptyNoteScenario(env: Envelope, hs: seq<Header>, soup: Soup)
    ensures var subject := SummaryText.RenderSubject(Lookup(hs, "Subject"));
            var summary := SummaryText.Summary(env.peer, env.mailfrom, env.rcpttos, subject,
                                               Get(hs, "Reply-To", ""), 0, 0);
            var name := subject + ".msg";
            var calls := [PostMessage("#general", summary),
                          WriteFile(name, Some(env.data)),
                          UploadFile("#general", name, name, NoComment),
                          RemoveFile(name)];
            && ProcessAsWritten(env, EmptyNote(hs), soup, 0, {}) == Trace(calls, None)
            && Process(env, EmptyNote(hs), soup, 0, {}) == Trace(calls, None)
  {
    var e := EmptyNote(hs);
    assert Walk(e) == [e];
    assert Classify([e]) == Step(Initial, e);
    var parts := Classify(Walk(e));
    assert parts == Parts(None, Some([]), Get(hs, "Reply-To", ""), []);
    assert SelectLinks(parts, soup) == Ok([]) && SelectLinksDecoded(parts, soup) == [];
    var p := MessagePlan(env, e, parts, []);
    var subject := SummaryText.RenderSubject(Lookup(hs, "Subject"));
    var name := subject + ".msg";
    var calls := [PostMessage("#general", SummaryText.Summary(env.peer, env.mailfrom, env.rcpttos, subject,
                                                              Get(hs, "Reply-To", ""), 0, 0)),
                  WriteFile(name, Some(env.data)),
                  UploadFile("#general", name, name, NoComment),
                  RemoveFile(name)];
    assert Forwarding.LinkBlock([]) == [] && Forwarding.AttachmentBlock([]) == [];
    assert p == calls;
    NoFaultsRunAll(calls);
  }

  /**
   * With the body decoded, a plain-text-only message whose calls all go through
   * posts exactly the links the scanner finds in its body, in order, right after
   * the summary.
   */
  lemma DecodedTextLinksPosted(env: Envelope, e: Part, soup: Soup, n: nat, failing: set<nat>)
    requires var parts := Classify(Walk(e));
             !Truthy(parts.bodyHtml) && Truthy(parts.bodyText) &&
             AllSucceed(MessagePlan(env, e, parts, SelectLinksDecoded(parts, soup)), n, failing)
    ensures var links := TextLinks.GetLinksText(Latin1(Classify(Walk(e)).bodyText.value));
            var t := Process(env, e, soup, n, failing);
            |t.attempted| > |links| &&
            forall k :: 0 <= k < |links| ==> t.attempted[1 + k] == PostMessage(Forwarding.Channel, links[k])
  {
    var parts := Classify(Walk(e));
    var links := SelectLinksDecoded(parts, soup);
    ProcessCompletes(env, e, soup, n, failing);
    Forwarding.PlanPosts(MessageSummary(env, e, parts, links), links, parts.attachments, env.data, Subject(e));
  }
}
