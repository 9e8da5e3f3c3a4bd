/**
 * The decoded message tree that the mail library hands to the drop box,
 * header lookup on one part, and the pre-order walk over the tree.
 */
module Mime {
  import opened Wrappers

  /** One octet of a decoded payload. */
  newtype byte = x: int | 0 <= x < 256

  type Bytes = seq<byte>

  /** A header field as the parser keeps it, in wire order. */
  datatype Header = Header(name: string, value: string)

  /**
   * A node of the message tree. `contentType` is what get_content_type()
   * reports, `filename` what get_filename() reports, and `payload` what
   * get_payload(decode=True) reports: the transfer-decoded bytes, or None
   * for a multipart node. `children` is empty unless the node is multipart.
   */
  datatype Part = Part(
    headers: seq<Header>,
    contentType: string,
    filename: Option<string>,
    payload: Option<Bytes>,
    children: seq<Part>)

  function LowerAscii(c: char): char {
    if 'A' <= c <= 'Z' then (c as int + 32) as char else c
  }

  /** Header names compare without regard to ASCII case. */
  predicate SameName(a: string, b: string) {
    |a| == |b| && forall i :: 0 <= i < |a| ==> LowerAscii(a[i]) == LowerAscii(b[i])
  }

  /** `msg[name]`: the value of the first header with that name, if any. */
  function Lookup(hs: seq<Header>, name: string): (r: Option<string>)
    ensures r == None <==> forall i :: 0 <= i < |hs| ==> !SameName(hs[i].name, name)
    ensures forall i :: 0 <= i < |hs| && SameName(hs[i].name, name)
                 && (forall j :: 0 <= j < i ==> !SameName(hs[j].name, name))
                 ==> r == Some(hs[i].value)
  {
    if hs == [] then None
    else if SameName(hs[0].name, name) then Some(hs[0].value)
    else Lookup(hs[1..], name)
  }

  /** `msg.get(name, default)`. */
  function Get(hs: seq<Header>, name: string, default: string): string {
    Lookup(hs, name).GetOr(default)
  }

  /** `walk()`: the node itself, then the walk of each child in order. */
  function Walk(p: Part): (ws: seq<Part>)
    decreases p
    ensures |ws| >= 1 && ws[0] == p
  {
    [p] + WalkAll(p.children)
  }

  function WalkAll(cs: seq<Part>): seq<Part>
    decreases cs
  {
    if cs == [] then [] else Walk(cs[0]) + WalkAll(cs[1..])
  }

  /** Every node of the tree, counted once. */
  function Size(p: Part): nat
    decreases p
  {
    1 + SizeAll(p.children)
  }

  function SizeAll(cs: seq<Part>): nat
    decreases cs
  {
    if cs == [] then 0 else Size(cs[0]) + SizeAll(cs[1..])
  }

  /** The walk visits every node exactly once. */
  lemma {:induction false} WalkLength(p: Part)
    decreases p, 1
    ensures |Walk(p)| == Size(p)
  {
    WalkAllLength(p.children);
  }

  lemma {:induction false} WalkAllLength(cs: seq<Part>)
    decreases cs, 0
    ensures |WalkAll(cs)| == SizeAll(cs)
  {
    if cs != [] {
      WalkLength(cs[0]);
      WalkAllLength(cs[1..]);
    }
  }

  /** Each child's walk is a contiguous block of the parent's walk, in child order. */
  lemma {:induction false} WalkChildBlock(p: Part, k: nat)
    requires k < |p.children|
    ensures 1 + |WalkAll(p.children[..k])| + |Walk(p.children[k])| <= |Walk(p)|
    ensures Walk(p)[1 + |WalkAll(p.children[..k])|..][..|Walk(p.children[k])|] == Walk(p.children[k])
  {
    WalkAllSplit(p.children, k);
  }

  lemma {:induction false} WalkAllSplit(cs: seq<Part>, k: nat)
    requires k < |cs|
    decreases k
    ensures WalkAll(cs) == WalkAll(cs[..k]) + Walk(cs[k]) + WalkAll(cs[k + 1..])
  {
    if k == 0 {
      assert cs[..0] == [];
    } else {
      WalkAllSplit(cs[1..], k - 1);
      assert cs[1..][..k - 1] == cs[1..k];
      assert cs[1..][k - 1] == cs[k];
      assert cs[1..][k..] == cs[k + 1..];
      assert cs[..k][0] == cs[0] && cs[..k][1..] == cs[1..k];
    }
  }
}
