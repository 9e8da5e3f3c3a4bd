/**
 * The calls process_message makes for one message, in order: the summary
 * post, one post per link, writing every attachment, then uploading and
 * removing each, then writing, uploading and removing the raw message.
 */
module Forwarding {
  import opened Wrappers
  import opened Mime
  import opened Actions
  import Dict
  import SummaryText

  /** The channel every post and upload goes to. */
  const Channel := "#general"

  type Attachments = Dict.Entries<Option<Bytes>>

  /** upload_links: one post per link, in list order. */
  function LinkPosts(links: seq<string>): (r: seq<Action>)
    ensures |r| == |links|
    ensures forall k :: 0 <= k < |links| ==> r[k] == PostMessage(Channel, links[k])
  {
    if links == [] then [] else [PostMessage(Channel, links[0])] + LinkPosts(links[1..])
  }

  /** write_attachments: one write per attachment, in key order. */
  function Writes(att: Attachments): (r: seq<Action>)
    ensures |r| == |att|
    ensures forall k :: 0 <= k < |att| ==> r[k] == WriteFile(att[k].0, att[k].1)
  {
    if att == [] then [] else [WriteFile(att[0].0, att[0].1)] + Writes(att[1..])
  }

  /** The upload of one attachment, carrying the digest of its data as comment. */
  function Upload(e: (string, Option<Bytes>)): Action {
    UploadFile(Channel, e.0, e.0, Md5Of(e.1))
  }

  /** upload_attachments: for each attachment in key order, upload it, then remove its file. */
  function UploadsAndRemoves(att: Attachments): (r: seq<Action>)
    ensures |r| == 2 * |att|
  {
    if att == [] then [] else [Upload(att[0]), RemoveFile(att[0].0)] + UploadsAndRemoves(att[1..])
  }

  /** The two calls for attachment k sit at positions 2k and 2k + 1. */
  lemma {:induction false} UploadsAndRemovesAt(att: Attachments, k: nat)
    requires k < |att|
    decreases k
    ensures var r := UploadsAndRemoves(att);
            r[2 * k] == Upload(att[k]) && r[2 * k + 1] == RemoveFile(att[k].0)
  {
    if k > 0 {
      UploadsAndRemovesAt(att[1..], k - 1);
      var r := UploadsAndRemoves(att);
      assert r[2 * k] == UploadsAndRemoves(att[1..])[2 * (k - 1)];
      assert r[2 * k + 1] == UploadsAndRemoves(att[1..])[2 * (k - 1) + 1];
    }
  }

  /** The calls of iteration i of upload_attachments. */
  lemma UploadsAndRemovesPair(att: Attachments, i: nat)
    requires i < |att|
    ensures var r := UploadsAndRemoves(att);
            2 * i + 2 <= |r| && r[2 * i..2 * i + 2] == [Upload(att[i]), RemoveFile(att[i].0)]
  {
    UploadsAndRemovesAt(att, i);
    var r := UploadsAndRemoves(att);
    assert r[2 * i..2 * i + 2][0] == r[2 * i];
    assert r[2 * i..2 * i + 2][1] == r[2 * i + 1];
  }


  /** The file name under which the raw message is staged and uploaded. */
  function MessageFile(subject: Option<string>): string {
    SummaryText.RenderSubject(subject) + ".msg"
  }

  /** upload_email. */
  function EmailCalls(data: Bytes, subject: Option<string>): seq<Action> {
    var name := MessageFile(subject);
    [WriteFile(name, Some(data)), UploadFile(Channel, name, name, NoComment), RemoveFile(name)]
  }

  /** The posts for the links: none when there are no links. */
  function LinkBlock(links: seq<string>): (r: seq<Action>)
    ensures |r| == |links|
  {
    if |links| > 0 then LinkPosts(links) else []
  }

  /** The attachment calls: none when there are no attachments. */
  function AttachmentBlock(att: Attachments): (r: seq<Action>)
    ensures |r| == 3 * |att|
  {
    if |att| > 0 then Writes(att) + UploadsAndRemoves(att) else []
  }

  /** Everything process_message asks of its collaborators, once the links are known. */
  function Plan(summary: string, links: seq<string>, att: Attachments, data: Bytes,
                subject: Option<string>): seq<Action>
  {
    [PostMessage(Channel, summary)] + LinkBlock(links) + AttachmentBlock(att) + EmailCalls(data, subject)
  }

  /** Where the block of upload/remove calls starts. */
  function UploadBase(links: seq<string>, att: Attachments): nat {
    1 + |links| + |att|
  }

  /** The plan opens with the summary post, then posts every link in list order. */
  lemma PlanPosts(summary: string, links: seq<string>, att: Attachments, data: Bytes,
                  subject: Option<string>)
    ensures var p := Plan(summary, links, att, data, subject);
            && |p| == UploadBase(links, att) + 2 * |att| + 3
            && p[0] == PostMessage(Channel, summary)
            && forall k :: 0 <= k < |links| ==> p[1 + k] == PostMessage(Channel, links[k])
  {
    var p := Plan(summary, links, att, data, subject);
    var lp, ap, ec := LinkBlock(links), AttachmentBlock(att), EmailCalls(data, subject);
    var head := [PostMessage(Channel, summary)] + lp;
    assert p == head + ap + ec;
    forall k | 0 <= k < |links| ensures p[1 + k] == PostMessage(Channel, links[k]) {
      assert p[1 + k] == head[1 + k] == lp[k];
    }
  }

  /** Then it writes every attachment, in key order. */
  lemma PlanWrites(summary: string, links: seq<string>, att: Attachments, data: Bytes,
                   subject: Option<string>)
    ensures var p := Plan(summary, links, att, data, subject);
            && |p| == UploadBase(links, att) + 2 * |att| + 3
            && forall k :: 0 <= k < |att| ==> p[1 + |links| + k] == WriteFile(att[k].0, att[k].1)
  {
    var p := Plan(summary, links, att, data, subject);
    var lp, ap, ec := LinkBlock(links), AttachmentBlock(att), EmailCalls(data, subject);
    var head := [PostMessage(Channel, summary)] + lp;
    assert p == head + ap + ec;
    forall k | 0 <= k < |att| ensures p[1 + |links| + k] == WriteFile(att[k].0, att[k].1) {
      assert p[1 + |links| + k] == ap[k] == Writes(att)[k];
    }
  }

  /** Then, for each attachment in key order, it uploads the attachment and removes its file. */
  lemma PlanUploadAt(summary: string, links: seq<string>, att: Attachments, data: Bytes,
                     subject: Option<string>, k: nat)
    requires k < |att|
    ensures var p := Plan(summary, links, att, data, subject);
            var b := UploadBase(links, att);
            && |p| == b + 2 * |att| + 3
            && p[b + 2 * k] == Upload(att[k])
            && p[b + 2 * k + 1] == RemoveFile(att[k].0)
  {
    var p := Plan(summary, links, att, data, subject);
    var lp, ap, ec := LinkBlock(links), AttachmentBlock(att), EmailCalls(data, subject);
    var head := [PostMessage(Channel, summary)] + lp;
    assert p == head + ap + ec;
    var b := UploadBase(links, att);
    UploadsAndRemovesAt(att, k);
    assert p[b + 2 * k] == ap[|att| + 2 * k] == UploadsAndRemoves(att)[2 * k];
    assert p[b + 2 * k + 1] == ap[|att| + 2 * k + 1] == UploadsAndRemoves(att)[2 * k + 1];
  }

  /** It closes with writing, uploading and removing the raw message. */
  lemma PlanEmailTail(summary: string, links: seq<string>, att: Attachments, data: Bytes,
                      subject: Option<string>)
    ensures var p := Plan(summary, links, att, data, subject);
            var b := UploadBase(links, att);
            && |p| == b + 2 * |att| + 3
            && p[b + 2 * |att|..] == EmailCalls(data, subject)
  {
    var p := Plan(summary, links, att, data, subject);
    var lp, ap, ec := LinkBlock(links), AttachmentBlock(att), EmailCalls(data, subject);
    assert p == ([PostMessage(Channel, summary)] + lp + ap) + ec;
  }

  /**
   * Where each kind of call sits in a plan for these links and attachments
   * ending with the calls ec: the summary post first, then the link posts, the
   * writes, the upload/removal pairs and ec.
   */
  ghost predicate Layout(p: seq<Action>, links: seq<string>, att: Attachments, ec: seq<Action>) {
    var b := UploadBase(links, att);
    && |p| == b + 2 * |att| + |ec|
    && p[0].PostMessage?
    && (forall k :: 0 <= k < |links| ==> p[1 + k] == PostMessage(Channel, links[k]))
    && (forall k :: 0 <= k < |att| ==> p[1 + |links| + k] == WriteFile(att[k].0, att[k].1))
    && (forall k :: 0 <= k < |att| ==> p[b + 2 * k] == Upload(att[k]))
    && (forall k :: 0 <= k < |att| ==> p[b + 2 * k + 1] == RemoveFile(att[k].0))
    && p[b + 2 * |att|..] == ec
  }

  /** The plan has that layout. */
  lemma PlanLayout(summary: string, links: seq<string>, att: Attachments, data: Bytes,
                   subject: Option<string>)
    ensures Layout(Plan(summary, links, att, data, subject), links, att, EmailCalls(data, subject))
  {
    PlanPosts(summary, links, att, data, subject);
    PlanWrites(summary, links, att, data, subject);
    PlanEmailTail(summary, links, att, data, subject);
    forall k | 0 <= k < |att|
      ensures Plan(summary, links, att, data, subject)[UploadBase(links, att) + 2 * k] == Upload(att[k])
      ensures Plan(summary, links, att, data, subject)[UploadBase(links, att) + 2 * k + 1] == RemoveFile(att[k].0)
    {
      PlanUploadAt(summary, links, att, data, subject, k);
    }
  }

  /** In the upload region, even offsets are uploads and odd offsets remove the attachment's file. */
  lemma LayoutUploadRegion(p: seq<Action>, links: seq<string>, att: Attachments, ec: seq<Action>, i: nat)
    requires Layout(p, links, att, ec)
    requires UploadBase(links, att) <= i < UploadBase(links, att) + 2 * |att|
    ensures var b := UploadBase(links, att);
            && ((i - b) % 2 == 0 ==> p[i].UploadFile?)
            && ((i - b) % 2 == 1 ==> p[i] == RemoveFile(att[(i - b) / 2].0))
  {
    var b := UploadBase(links, att);
    var d := i - b;
    var k := d / 2;
    Halve(d, |att|);
    assert p[b + 2 * k] == Upload(att[k]) && p[b + 2 * k + 1] == RemoveFile(att[k].0);
    PairAt(p, b, i, k);
  }

  /** Within a block of pairs, the offset's parity says which of the pair it is. */
  lemma PairAt(p: seq<Action>, b: nat, i: nat, k: nat)
    requires b <= i && (i - b == 2 * k || i - b == 2 * k + 1) && b + 2 * k + 1 < |p|
    ensures (i - b) % 2 == 0 ==> p[i] == p[b + 2 * k]
    ensures (i - b) % 2 == 1 ==> p[i] == p[b + 2 * k + 1] && (i - b) / 2 == k
  {
  }

  /** An offset into the upload region is an attachment's upload or, one further, its removal. */
  lemma Halve(d: nat, m: nat)
    requires d < 2 * m
    ensures d / 2 < m
    ensures d % 2 == 0 ==> d == 2 * (d / 2)
    ensures d % 2 == 1 ==> d == 2 * (d / 2) + 1
  {
  }

  /** The kind of call at each position of a plan with that layout, region by region. */
  lemma LayoutRegions(p: seq<Action>, links: seq<string>, att: Attachments, ec: seq<Action>, i: nat)
    requires Layout(p, links, att, ec) && i < |p|
    ensures var b := UploadBase(links, att);
            && (i < 1 + |links| ==> p[i].PostMessage?)
            && (1 + |links| <= i < b ==> p[i] == WriteFile(att[i - 1 - |links|].0, att[i - 1 - |links|].1))
            && (b <= i < b + 2 * |att| && (i - b) % 2 == 0 ==> p[i].UploadFile?)
            && (b <= i < b + 2 * |att| && (i - b) % 2 == 1 ==> p[i] == RemoveFile(att[(i - b) / 2].0))
            && (b + 2 * |att| <= i ==> p[i] == ec[i - b - 2 * |att|])
  {
    var b := UploadBase(links, att);
    if i < 1 + |links| {
      if i > 0 {
        assert p[1 + (i - 1)] == PostMessage(Channel, links[i - 1]);
      }
    } else if i < b {
      assert p[1 + |links| + (i - 1 - |links|)] == WriteFile(att[i - 1 - |links|].0, att[i - 1 - |links|].1);
    } else if i < b + 2 * |att| {
      LayoutUploadRegion(p, links, att, ec, i);
    } else {
      assert p[i] == p[b + 2 * |att|..][i - b - 2 * |att|];
    }
  }

  /** The kind of call at each position of the plan, region by region. */
  lemma PlanRegions(summary: string, links: seq<string>, att: Attachments, data: Bytes,
                    subject: Option<string>, i: nat)
    requires i < |Plan(summary, links, att, data, subject)|
    ensures var p := Plan(summary, links, att, data, subject);
            var b := UploadBase(links, att);
            && (i < 1 + |links| ==> p[i].PostMessage?)
            && (1 + |links| <= i < b ==> p[i] == WriteFile(att[i - 1 - |links|].0, att[i - 1 - |links|].1))
            && (b <= i < b + 2 * |att| && (i - b) % 2 == 0 ==> p[i].UploadFile?)
            && (b <= i < b + 2 * |att| && (i - b) % 2 == 1 ==> p[i] == RemoveFile(att[(i - b) / 2].0))
            && (b + 2 * |att| <= i ==> p[i] == EmailCalls(data, subject)[i - b - 2 * |att|])
  {
    PlanLayout(summary, links, att, data, subject);
    LayoutRegions(Plan(summary, links, att, data, subject), links, att, EmailCalls(data, subject), i);
  }

  /**
   * In a plan with that layout whose closing calls write a file, upload and then
   * remove it, every file written is removed by a later call.
   */
  lemma LayoutCleansUp(p: seq<Action>, links: seq<string>, att: Attachments, ec: seq<Action>)
    requires Layout(p, links, att, ec)
    requires |ec| == 3 && ec[1].UploadFile? && ec[0].WriteFile? && ec[2] == RemoveFile(ec[0].path)
    ensures forall i :: 0 <= i < |p| && p[i].WriteFile? ==>
              exists j :: i < j < |p| && p[j] == RemoveFile(p[i].path)
  {
    var b := UploadBase(links, att);
    forall i | 0 <= i < |p| && p[i].WriteFile?
      ensures exists j :: i < j < |p| && p[j] == RemoveFile(p[i].path)
    {
      LayoutRegions(p, links, att, ec, i);
      if 1 + |links| <= i < b {
        var k := i - 1 - |links|;
        var j := b + 2 * k + 1;
        assert p[j] == RemoveFile(att[k].0);
      } else if b + 2 * |att| <= i {
        var j := b + 2 * |att| + 2;
        LayoutRegions(p, links, att, ec, j);
        assert i == b + 2 * |att|;
        assert p[j] == RemoveFile(p[i].path);
      }
    }
  }

  /**
   * When every call goes through, every file written is removed by a later call:
   * nothing stays on disk.
   */
  lemma PlanCleansUp(summary: string, links: seq<string>, att: Attachments, data: Bytes,
                     subject: Option<string>)
    ensures var p := Plan(summary, links, att, data, subject);
            forall i :: 0 <= i < |p| && p[i].WriteFile? ==>
              exists j :: i < j < |p| && p[j] == RemoveFile(p[i].path)
  {
    PlanLayout(summary, links, att, data, subject);
    LayoutCleansUp(Plan(summary, links, att, data, subject), links, att, EmailCalls(data, subject));
  }

  /** Up to the upload of attachment k, no call removes the file of attachment k or of a later one. */
  lemma LayoutNoRemove(p: seq<Action>, links: seq<string>, att: Attachments, ec: seq<Action>, k: nat, j: nat)
    requires Layout(p, links, att, ec) && Dict.Distinct(att) && k <= j < |att|
    ensures forall i :: 0 <= i <= UploadBase(links, att) + 2 * k ==> p[i] != RemoveFile(att[j].0)
  {
    var b := UploadBase(links, att);
    forall i | 0 <= i <= b + 2 * k ensures p[i] != RemoveFile(att[j].0) {
      LayoutRegions(p, links, att, ec, i);
      if b <= i && (i - b) % 2 == 1 {
        var m := (i - b) / 2;
        assert m < k;
        assert Dict.Keys(att)[m] != Dict.Keys(att)[j];
      }
    }
  }

  /** Up to the upload of attachment k, no call removes the file of attachment k or of a later one. */
  lemma NoRemoveBeforeUpload(summary: string, links: seq<string>, att: Attachments, data: Bytes,
                             subject: Option<string>, k: nat, j: nat)
    requires Dict.Distinct(att) && k <= j < |att|
    ensures var p := Plan(summary, links, att, data, subject);
            forall i :: 0 <= i <= UploadBase(links, att) + 2 * k ==> p[i] != RemoveFile(att[j].0)
  {
    PlanLayout(summary, links, att, data, subject);
    LayoutNoRemove(Plan(summary, links, att, data, subject), links, att, EmailCalls(data, subject), k, j);
  }

  /**
   * A run that fails at call u has made every call at or before u, and only those.
   */
  lemma FailedRunHolds(p: seq<Action>, n: nat, failing: set<nat>, u: nat, w: nat, x: Action, y: Action)
    requires Run(p, n, failing).error.Some? && Run(p, n, failing).error.value.CallFailed?
    requires Run(p, n, failing).error.value.step == n + u
    requires w <= u && (u < |p| ==> p[w] == x)
    requires forall i :: 0 <= i <= u && i < |p| ==> p[i] != y
    ensures x in Run(p, n, failing).attempted && y !in Run(p, n, failing).attempted
  {
    RunStopsAtFirstFailure(p, n, failing);
    RunIsPrefix(p, n, failing);
    var t := Run(p, n, failing);
    assert |t.attempted| == u + 1;
    assert t.attempted[w] == x;
  }

  /**
   * If the run fails at the upload of attachment k, the file of attachment k and of
   * every attachment j after it has been written and is never removed: a failed
   * upload leaves its own file and the later ones on disk.
   */
  lemma UploadFailureLeavesFiles(summary: string, links: seq<string>, att: Attachments, data: Bytes,
                                 subject: Option<string>, n: nat, failing: set<nat>, k: nat, j: nat)
    requires Dict.Distinct(att) && k <= j < |att|
    requires Run(Plan(summary, links, att, data, subject), n, failing).error ==
             Some(CallFailed(n + UploadBase(links, att) + 2 * k, Upload(att[k])))
    ensures var t := Run(Plan(summary, links, att, data, subject), n, failing);
            WriteFile(att[j].0, att[j].1) in t.attempted && RemoveFile(att[j].0) !in t.attempted
  {
    var p := Plan(summary, links, att, data, subject);
    PlanWrites(summary, links, att, data, subject);
    NoRemoveBeforeUpload(summary, links, att, data, subject, k, j);
    FailedRunHolds(p, n, failing, UploadBase(links, att) + 2 * k, 1 + |links| + j,
                   WriteFile(att[j].0, att[j].1), RemoveFile(att[j].0));
  }
}
