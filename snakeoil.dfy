/**
 * The drop box handler: an object whose methods make the collaborator calls
 * one at a time and keep the history of the calls made.
 */
module Server {
  import opened Wrappers
  import opened Mime
  import opened Actions
  import opened PartClassifier
  import Dict
  import HtmlLinks
  import TextLinks
  import Forwarding
  import Pipeline

  class SnakeOil {
    /** Every collaborator call made so far, in order, the one that raised included. */
    var effects: seq<Action>
    /** The positions in the history whose call the outside world makes raise. */
    const failing: set<nat>

    constructor (failing: set<nat>)
      ensures this.failing == failing && effects == []
    {
      this.failing := failing;
      effects := [];
    }

    /** One collaborator call: recorded in the history; ok says whether it went through. */
    method Call(a: Action) returns (ok: bool)
      modifies this
      ensures effects == old(effects) + [a]
      ensures ok == !Raises(failing, |old(effects)|, a)
    {
      ok := !Raises(failing, |effects|, a);
      effects := effects + [a];
    }

    /** get_parts: one pass over the walk of the message, updating the result entry by entry. */
    method GetParts(e: Part) returns (parts: Parts)
      ensures parts == Classify(Walk(e))
    {
      var ws := Walk(e);
      parts := Parts(None, None, "", []);
      var i := 0;
      while i < |ws|
        invariant 0 <= i <= |ws|
        invariant parts == Classify(ws[..i])
      {
        parts := Visit(parts, ws[i]);
        ClassifyExtend(ws, i);
        i := i + 1;
      }
      assert ws[..i] == ws;
    }

    /** The body of the loop of get_parts for one part: its Reply-To, then its attachment or body. */
    method Visit(acc: Parts, p: Part) returns (parts: Parts)
      ensures parts == Step(acc, p)
    {
      parts := acc.(replyTo := Get(p.headers, "Reply-To", ""));
      if HasFilename(p) {
        parts := parts.(attachments := Dict.Put(parts.attachments, p.filename.value, p.payload));
      } else {
        if p.contentType == HtmlType {
          parts := parts.(bodyHtml := p.payload);
        }
        if p.contentType == TextType {
          parts := parts.(bodyText := p.payload);
        }
      }
    }

    /** get_links_html: the accepted hrefs of the anchors the parser reports, in document order. */
    method GetLinksHtml(body: Bytes, soup: Pipeline.Soup) returns (links: seq<string>)
      ensures links == HtmlLinks.HrefFilter(soup(body))
    {
      var anchors := soup(body);
      links := [];
      var i := 0;
      while i < |anchors|
        invariant 0 <= i <= |anchors|
        invariant links == HtmlLinks.HrefFilter(anchors[..i])
      {
        var tag := anchors[i];
        if tag.href.Some? && HtmlLinks.HrefMatches(tag.href.value) {
          links := links + [tag.href.value];
        }
        assert anchors[..i + 1][..i] == anchors[..i];
        i := i + 1;
      }
      assert anchors[..i] == anchors;
    }

    /** upload_links: one post per link; an exception ends the loop. */
    method UploadLinks(links: seq<string>) returns (err: Option<Error>)
      modifies this
      ensures var t := Run(Forwarding.LinkPosts(links), |old(effects)|, failing);
              effects == old(effects) + t.attempted && err == t.error
    {
      ghost var h0 := effects;
      ghost var plan := Forwarding.LinkPosts(links);
      var i := 0;
      while i < |links|
        invariant 0 <= i <= |links|
        invariant Run(plan[..i], |h0|, failing).error.None?
        invariant effects == h0 + plan[..i]
      {
        var call := PostMessage(Forwarding.Channel, links[i]);
        assert plan[i] == call;
        ghost var h1 := effects;
        var at := |effects|;
        var ok := Call(call);
        CallStep(h0, h1, effects, plan, i, failing);
        if !ok {
          return Some(CallFailed(at, call));
        }
        i := i + 1;
      }
      LoopDone(h0, effects, plan, failing);
      return None;
    }

    /** write_attachments: one file written per attachment, in key order. */
    method WriteAttachments(att: Forwarding.Attachments) returns (err: Option<Error>)
      modifies this
      ensures var t := Run(Forwarding.Writes(att), |old(effects)|, failing);
              effects == old(effects) + t.attempted && err == t.error
    {
      ghost var h0 := effects;
      ghost var plan := Forwarding.Writes(att);
      var i := 0;
      while i < |att|
        invariant 0 <= i <= |att|
        invariant Run(plan[..i], |h0|, failing).error.None?
        invariant effects == h0 + plan[..i]
      {
        var call := WriteFile(att[i].0, att[i].1);
        assert plan[i] == call;
        ghost var h1 := effects;
        var at := |effects|;
        var ok := Call(call);
        CallStep(h0, h1, effects, plan, i, failing);
        if !ok {
          return Some(CallFailed(at, call));
        }
        i := i + 1;
      }
      LoopDone(h0, effects, plan, failing);
      return None;
    }

    /** One iteration of upload_attachments: upload the attachment with its digest, then remove its file. */
    method UploadAttachment(a: (string, Option<Bytes>)) returns (err: Option<Error>)
      modifies this
      ensures var t := Run([Forwarding.Upload(a), RemoveFile(a.0)], |old(effects)|, failing);
              effects == old(effects) + t.attempted && err == t.error
    {
      var n := |effects|;
      var upload := Forwarding.Upload(a);
      RunPair(upload, RemoveFile(a.0), n, failing);
      var ok := Call(upload);
      if !ok {
        return Some(CallFailed(n, upload));
      }
      var remove := RemoveFile(a.0);
      ok := Call(remove);
      if !ok {
        return Some(CallFailed(n + 1, remove));
      }
      return None;
    }

    /** upload_attachments: each attachment in key order, stopping at the first exception. */
    method UploadAttachments(att: Forwarding.Attachments) returns (err: Option<Error>)
      modifies this
      ensures var t := Run(Forwarding.UploadsAndRemoves(att), |old(effects)|, failing);
              effects == old(effects) + t.attempted && err == t.error
    {
      ghost var h0 := effects;
      ghost var plan := Forwarding.UploadsAndRemoves(att);
      var i := 0;
      while i < |att|
        invariant 0 <= i <= |att|
        invariant Run(plan[..2 * i], |h0|, failing).error.None?
        invariant effects == h0 + plan[..2 * i]
      {
        Forwarding.UploadsAndRemovesPair(att, i);
        ghost var h1 := effects;
        err := UploadAttachment(att[i]);
        BlockStep(h0, h1, effects, plan, 2 * i, 2 * i + 2, failing);
        if err.Some? {
          return;
        }
        i := i + 1;
      }
      LoopDone(h0, effects, plan, failing);
      return None;
    }
  
    /** upload_email: write the raw message under the subject's name, upload it, remove it. */
    method UploadEmail(data: Bytes, subject: Option<string>) returns (err: Option<Error>)
      modifies this
      ensures var t := Run(Forwarding.EmailCalls(data, subject), |old(effects)|, failing);
              effects == old(effects) + t.attempted && err == t.error
    {
      var n := |effects|;
      var name := Forwarding.MessageFile(subject);
      var write := WriteFile(name, Some(data));
      var upload := UploadFile(Forwarding.Channel, name, name, NoComment);
      var remove := RemoveFile(name);
      RunTriple(write, upload, remove, n, failing);
      RunPair(upload, remove, n + 1, failing);
      var ok := Call(write);
      if !ok {
        return Some(CallFailed(n, write));
      }
      ok := Call(upload);
      if !ok {
        return Some(CallFailed(n + 1, upload));
      }
      ok := Call(remove);
      if !ok {
        return Some(CallFailed(n + 2, remove));
      }
      return None;
    }

    /** Lines 181-183 of process_message: with attachments, write them all, then upload them all. */
    method AttachmentStage(att: Forwarding.Attachments) returns (err: Option<Error>)
      modifies this
      ensures var t := Run(Forwarding.AttachmentBlock(att), |old(effects)|, failing);
              effects == old(effects) + t.attempted && err == t.error
    {
      if |att| == 0 {
        return None;
      }
      ghost var h0 := effects;
      ghost var w, u := Forwarding.Writes(att), Forwarding.UploadsAndRemoves(att);
      err := WriteAttachments(att);
      if err.Some? {
        HistoryStops(h0, effects, w, u, failing);
        return;
      }
      ghost var h1 := effects;
      err := UploadAttachments(att);
      HistoryThen(h0, h1, effects, w, u, failing);
    }

    /** Lines 179-180 of process_message: with links, post them. */
    method LinkStage(links: seq<string>) returns (err: Option<Error>)
      modifies this
      ensures var t := Run(Forwarding.LinkBlock(links), |old(effects)|, failing);
              effects == old(effects) + t.attempted && err == t.error
    {
      if |links| == 0 {
        return None;
      }
      err := UploadLinks(links);
    }

    /**
     * The calls of process_message once the links are known: the summary, the
     * links, the attachments, the raw message; an exception ends them.
     */
    method Forward(summary: string, links: seq<string>, att: Forwarding.Attachments, data: Bytes,
                   subject: Option<string>) returns (err: Option<Error>)
      modifies this
      ensures var t := Run(Forwarding.Plan(summary, links, att, data, subject), |old(effects)|, failing);
              effects == old(effects) + t.attempted && err == t.error
    {
      var n := |effects|;
      ghost var h0 := effects;
      ghost var lb, ab, ec := Forwarding.LinkBlock(links), Forwarding.AttachmentBlock(att), Forwarding.EmailCalls(data, subject);
      var post := PostMessage(Forwarding.Channel, summary);
      ghost var done := [post];
      RunSingle(post, n, failing);
      var ok := Call(post);
      if !ok {
        HistoryStops(h0, effects, done, lb, failing);
        HistoryStops(h0, effects, done + lb, ab, failing);
        HistoryStops(h0, effects, done + lb + ab, ec, failing);
        return Some(CallFailed(n, post));
      }

      ghost var h1 := effects;
      err := LinkStage(links);
      HistoryThen(h0, h1, effects, done, lb, failing);
      done := done + lb;
      if err.Some? {
        HistoryStops(h0, effects, done, ab, failing);
        HistoryStops(h0, effects, done + ab, ec, failing);
        return;
      }

      h1 := effects;
      err := AttachmentStage(att);
      HistoryThen(h0, h1, effects, done, ab, failing);
      done := done + ab;
      if err.Some? {
        HistoryStops(h0, effects, done, ec, failing);
        return;
      }

      h1 := effects;
      err := UploadEmail(data, subject);
      HistoryThen(h0, h1, effects, done, ec, failing);
    }

    /**
     * process_message: the calls of the message in order; the first exception
     * ends them and is what the handler prints.
     */
    method ProcessMessage(env: Pipeline.Envelope, e: Part, soup: Pipeline.Soup) returns (printed: Option<Error>)
      modifies this
      ensures var t := Pipeline.ProcessAsWritten(env, e, soup, |old(effects)|, failing);
              effects == old(effects) + t.attempted && printed == t.error
    {
      var parts := GetParts(e);
      var links: seq<string> := [];
      if Pipeline.Truthy(parts.bodyHtml) {
        links := GetLinksHtml(parts.bodyHtml.value, soup);
      } else if Pipeline.Truthy(parts.bodyText) {
        return Some(StringPatternOnBytes);
      }
      assert Pipeline.SelectLinks(parts, soup) == Ok(links);
      var summary := Pipeline.MessageSummary(env, e, parts, links);
      printed := Forward(summary, links, parts.attachments, env.data, Pipeline.Subject(e));
    }

    /** process_message with the plain-text body decoded before its links are scanned. */
    method ProcessMessageDecoded(env: Pipeline.Envelope, e: Part, soup: Pipeline.Soup) returns (printed: Option<Error>)
      modifies this
      ensures var t := Pipeline.Process(env, e, soup, |old(effects)|, failing);
              effects == old(effects) + t.attempted && printed == t.error
    {
      var parts := GetParts(e);
      var links: seq<string> := [];
      if Pipeline.Truthy(parts.bodyHtml) {
        links := GetLinksHtml(parts.bodyHtml.value, soup);
      } else if Pipeline.Truthy(parts.bodyText) {
        links := TextLinks.GetLinksText(Pipeline.Latin1(parts.bodyText.value));
      }
      assert Pipeline.SelectLinksDecoded(parts, soup) == links;
      var summary := Pipeline.MessageSummary(env, e, parts, links);
      printed := Forward(summary, links, parts.attachments, env.data, Pipeline.Subject(e));
    }
  }
}
