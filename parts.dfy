/**
 * Part classification: the loop of get_parts over the walk of a message,
 * stated as a left fold so that properties of its result can be proved.
 */
module PartClassifier {
  import opened Wrappers
  import opened Mime
  import Dict

  /** The dict that get_parts returns. */
  datatype Parts = Parts(
    bodyHtml: Option<Bytes>,
    bodyText: Option<Bytes>,
    replyTo: string,
    attachments: Dict.Entries<Option<Bytes>>)

  const HtmlType := "text/html"
  const TextType := "text/text"

  /** `if f:` on get_filename(): present and non-empty. */
  predicate HasFilename(p: Part) {
    p.filename.Some? && |p.filename.value| > 0
  }

  /** A part that get_parts files under the body slot for content type ct. */
  predicate IsBody(p: Part, ct: string) {
    !HasFilename(p) && p.contentType == ct
  }

  /**
   * The state before the first iteration. Its `replyTo` is never observed:
   * a walk always visits the root, so the loop body runs at least once.
   */
  const Initial: Parts := Parts(None, None, "", [])

  /** One iteration of the loop body on part p. */
  function Step(acc: Parts, p: Part): Parts {
    var acc := acc.(replyTo := Get(p.headers, "Reply-To", ""));
    if HasFilename(p) then
      acc.(attachments := Dict.Put(acc.attachments, p.filename.value, p.payload))
    else
      var acc := if p.contentType == HtmlType then acc.(bodyHtml := p.payload) else acc;
      if p.contentType == TextType then acc.(bodyText := p.payload) else acc
  }

  /** The loop run over the parts ps in order. */
  function Classify(ps: seq<Part>): Parts
    decreases |ps|
  {
    if ps == [] then Initial else Step(Classify(ps[..|ps| - 1]), ps[|ps| - 1])
  }

  /** The running loop: the parts up to i + 1 are those up to i and one more step. */
  lemma ClassifyExtend(ps: seq<Part>, i: nat)
    requires i < |ps|
    ensures Classify(ps[..i + 1]) == Step(Classify(ps[..i]), ps[i])
  {
    assert ps[..i + 1][..i] == ps[..i];
  }

  /** The body slot that content type ct fills. */
  function BodySlot(r: Parts, ct: string): Option<Bytes> {
    if ct == HtmlType then r.bodyHtml else r.bodyText
  }

  /** Non-empty filenames of the parts, in walk order, repeats kept. */
  function Filenames(ps: seq<Part>): seq<string>
    decreases |ps|
  {
    if ps == [] then []
    else Filenames(ps[..|ps| - 1]) + (if HasFilename(ps[|ps| - 1]) then [ps[|ps| - 1].filename.value] else [])
  }

  /** The elements of xs in order of their first occurrence. */
  function FirstOccurrences(xs: seq<string>): seq<string>
    decreases |xs|
  {
    if xs == [] then []
    else
      var init := FirstOccurrences(xs[..|xs| - 1]);
      if xs[|xs| - 1] in xs[..|xs| - 1] then init else init + [xs[|xs| - 1]]
  }

  lemma {:induction false} FirstOccurrencesElements(xs: seq<string>)
    decreases |xs|
    ensures forall x :: x in FirstOccurrences(xs) <==> x in xs
    ensures Dict.NoDuplicates(FirstOccurrences(xs))
  {
    if xs != [] {
      var init := xs[..|xs| - 1];
      FirstOccurrencesElements(init);
      assert xs == init + [xs[|xs| - 1]];
    }
  }

  /** What one iteration does to a body slot. */
  lemma StepBodySlot(acc: Parts, p: Part, ct: string)
    requires ct == HtmlType || ct == TextType
    ensures BodySlot(Step(acc, p), ct) == if IsBody(p, ct) then p.payload else BodySlot(acc, ct)
  {
  }

  /** What one iteration does to the attachments. */
  lemma StepAttachments(acc: Parts, p: Part)
    ensures Step(acc, p).attachments
         == if HasFilename(p) then Dict.Put(acc.attachments, p.filename.value, p.payload) else acc.attachments
  {
  }

  /** What one iteration does to a lookup of the attachments. */
  lemma StepLookup(acc: Parts, p: Part, f: string)
    ensures Dict.Lookup(Step(acc, p).attachments, f)
         == if HasFilename(p) && f == p.filename.value then Some(p.payload) else Dict.Lookup(acc.attachments, f)
  {
    if HasFilename(p) {
      Dict.PutLookup(acc.attachments, p.filename.value, p.payload, f);
    }
  }

  /** A body slot stays None while no part of its content type (and no filename) has been seen. */
  lemma {:induction false} BodyAbsent(ps: seq<Part>, ct: string)
    requires ct == HtmlType || ct == TextType
    requires forall i :: 0 <= i < |ps| ==> !IsBody(ps[i], ct)
    decreases |ps|
    ensures BodySlot(Classify(ps), ct) == None
  {
    if ps != [] {
      var init, last := ps[..|ps| - 1], ps[|ps| - 1];
      assert forall i :: 0 <= i < |init| ==> init[i] == ps[i];
      BodyAbsent(init, ct);
      StepBodySlot(Classify(init), last, ct);
    }
  }

  /**
   * A body slot holds the payload of the last part in walk order that has no
   * filename and the slot's exact content type. The two slots depend on
   * disjoint sets of parts, so they are set independently.
   */
  lemma {:induction false} BodyIsLastCandidate(ps: seq<Part>, ct: string, i: nat)
    requires ct == HtmlType || ct == TextType
    requires i < |ps| && IsBody(ps[i], ct)
    requires forall j :: i < j < |ps| ==> !IsBody(ps[j], ct)
    decreases |ps|
    ensures BodySlot(Classify(ps), ct) == ps[i].payload
  {
    var init, last := ps[..|ps| - 1], ps[|ps| - 1];
    StepBodySlot(Classify(init), last, ct);
    if i < |ps| - 1 {
      assert forall j :: i < j < |init| ==> init[j] == ps[j];
      BodyIsLastCandidate(init, ct, i);
    }
  }

  /**
   * The attachment keys are the non-empty filenames in order of first
   * occurrence, each exactly once.
   */
  lemma {:induction false} AttachmentKeys(ps: seq<Part>)
    decreases |ps|
    ensures Dict.Keys(Classify(ps).attachments) == FirstOccurrences(Filenames(ps))
    ensures Dict.Distinct(Classify(ps).attachments)
  {
    if ps != [] {
      var init, last := ps[..|ps| - 1], ps[|ps| - 1];
      AttachmentKeys(init);
      FirstOccurrencesElements(Filenames(init));
      StepAttachments(Classify(init), last);
      if HasFilename(last) {
        var fs, f := Filenames(ps), last.filename.value;
        assert fs == Filenames(init) + [f];
        assert fs[..|fs| - 1] == Filenames(init);
        assert f in Dict.Keys(Classify(init).attachments) <==> f in Filenames(init);
      } else {
        assert Filenames(ps) == Filenames(init);
      }
    }
  }

  /**
   * A part with a non-empty filename is filed under that name, and the entry
   * holds the payload of the last part in walk order that carries the name;
   * no other names are filed.
   */
  lemma {:induction false} AttachmentIsLastPayload(ps: seq<Part>)
    decreases |ps|
    ensures forall i :: 0 <= i < |ps| && HasFilename(ps[i])
                 && (forall j :: i < j < |ps| ==> ps[j].filename != ps[i].filename || !HasFilename(ps[j]))
                 ==> Dict.Lookup(Classify(ps).attachments, ps[i].filename.value) == Some(ps[i].payload)
    ensures forall f :: Dict.Lookup(Classify(ps).attachments, f).Some? <==> f in Filenames(ps)
  {
    if ps != [] {
      var init, last := ps[..|ps| - 1], ps[|ps| - 1];
      AttachmentIsLastPayload(init);
      forall f ensures Dict.Lookup(Classify(ps).attachments, f)
                    == if HasFilename(last) && f == last.filename.value then Some(last.payload)
                       else Dict.Lookup(Classify(init).attachments, f) {
        StepLookup(Classify(init), last, f);
      }
      assert forall i :: 0 <= i < |init| ==> init[i] == ps[i];
      assert Filenames(ps) == Filenames(init) + (if HasFilename(last) then [last.filename.value] else []);
    }
  }

  /** Reply-To is rewritten on every iteration: the last part decides it. */
  lemma ReplyToIsLastPart(ps: seq<Part>)
    requires ps != []
    ensures Classify(ps).replyTo == Get(ps[|ps| - 1].headers, "Reply-To", "")
  {
    assert Classify(ps) == Step(Classify(ps[..|ps| - 1]), ps[|ps| - 1]);
  }
}
