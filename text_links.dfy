/**
 * Plain-text link scanning: `re.findall(r'https?://[A-Za-z0-9./]+', body)`,
 * written as a hand-made scanner and proved equal to the leftmost, greedy,
 * non-overlapping matches of the pattern.
 */
module TextLinks {
  import opened Wrappers

  /** The class [A-Za-z0-9./]. */
  predicate IsUrlChar(c: char) {
    ('A' <= c <= 'Z') || ('a' <= c <= 'z') || ('0' <= c <= '9') || c == '.' || c == '/'
  }

  /** t occurs in s at position i. */
  predicate HasAt(s: string, i: nat, t: string) {
    i + |t| <= |s| && s[i..i + |t|] == t
  }

  predicate AllUrl(s: string, a: nat, b: nat)
    requires a <= b <= |s|
  {
    forall j :: a <= j < b ==> IsUrlChar(s[j])
  }

  /** The pattern matches exactly s[i..e] (the end need not be maximal). */
  ghost predicate RegexMatch(s: string, i: nat, e: nat) {
    i <= e <= |s| &&
    ((HasAt(s, i, "http://") && i + 7 < e && AllUrl(s, i + 7, e)) ||
     (HasAt(s, i, "https://") && i + 8 < e && AllUrl(s, i + 8, e)))
  }

  /** No match of the pattern starts at i. */
  ghost predicate NoMatchAt(s: string, i: nat) {
    forall e: nat :: !RegexMatch(s, i, e)
  }

  /** The match the greedy `+` takes at i: it stops at the first character outside the class. */
  ghost predicate LongestMatch(s: string, i: nat, e: nat) {
    RegexMatch(s, i, e) && (e == |s| || !IsUrlChar(s[e]))
  }

  /** The position after the scheme `https://` or `http://` at i, if one is there. */
  function SchemeEnd(s: string, i: nat): (r: Option<nat>)
    ensures r.Some? ==> r.value <= |s|
  {
    if HasAt(s, i, "https://") then Some(i + 8)
    else if HasAt(s, i, "http://") then Some(i + 7)
    else None
  }

  /** The end of the longest run of class characters starting at j. */
  function RunEnd(s: string, j: nat): (k: nat)
    requires j <= |s|
    decreases |s| - j
    ensures j <= k <= |s| && AllUrl(s, j, k)
    ensures k == |s| || !IsUrlChar(s[k])
  {
    if j < |s| && IsUrlChar(s[j]) then RunEnd(s, j + 1) else j
  }

  /** The scanner's attempt at position i: the end of the match there, if any. */
  function MatchAt(s: string, i: nat): (r: Option<nat>)
    requires i <= |s|
    ensures r.Some? ==> i < r.value <= |s|
  {
    match SchemeEnd(s, i)
    case None => None
    case Some(b) =>
      var e := RunEnd(s, b);
      if b < e then Some(e) else None
  }

  /** At most one of the two schemes is present at i. */
  lemma SchemesExclusive(s: string, i: nat)
    requires HasAt(s, i, "https://")
    ensures !HasAt(s, i, "http://")
  {
    assert s[i + 4] == s[i..i + 8][4] == 's';
    if i + 7 <= |s| {
      assert s[i..i + 7][4] == 's' != "http://"[4];
    }
  }

  /** No run of class characters from j reaches past RunEnd(s, j). */
  lemma {:induction false} RunEndMaximal(s: string, j: nat, e: nat)
    requires j <= e <= |s| && AllUrl(s, j, e)
    decreases e - j
    ensures e <= RunEnd(s, j)
  {
    if j < e {
      assert IsUrlChar(s[j]);
      RunEndMaximal(s, j + 1, e);
    }
  }

  /** The attempt at i finds exactly the greedy match there, and nothing when the pattern cannot match. */
  lemma MatchAtIsLongest(s: string, i: nat)
    requires i <= |s|
    ensures MatchAt(s, i).None? <==> NoMatchAt(s, i)
    ensures forall e: nat :: MatchAt(s, i) == Some(e) <==> LongestMatch(s, i, e)
  {
    if MatchAt(s, i).Some? {
      assert RegexMatch(s, i, MatchAt(s, i).value);
    }
    if HasAt(s, i, "https://") {
      SchemesExclusive(s, i);
    }
    forall e: nat | RegexMatch(s, i, e)
      ensures MatchAt(s, i).Some? && e <= MatchAt(s, i).value
    {
      var b := if HasAt(s, i, "https://") then i + 8 else i + 7;
      assert SchemeEnd(s, i) == Some(b);
      RunEndMaximal(s, b, e);
    }
  }

  /** A match found by the scanner: s[start..end]. */
  datatype Span = Span(start: nat, end: nat)

  /** The scanner: try at i; after a match resume at its end, otherwise one character on. */
  function Scan(s: string, i: nat): (sp: seq<Span>)
    requires i <= |s|
    decreases |s| - i
    ensures forall k :: 0 <= k < |sp| ==> i <= sp[k].start < sp[k].end <= |s|
  {
    if i == |s| then []
    else
      match MatchAt(s, i)
      case Some(e) => [Span(i, e)] + Scan(s, e)
      case None => Scan(s, i + 1)
  }

  /** Where the k-th gap (the stretch before the k-th match) starts. */
  function GapStart(sp: seq<Span>, k: nat, from: nat): nat
    requires k <= |sp|
  {
    if k == 0 then from else sp[k - 1].end
  }

  /** Where the k-th gap ends: at the k-th match, or at the end of the text. */
  function GapEnd(sp: seq<Span>, k: nat, n: nat): nat
    requires k <= |sp|
  {
    if k < |sp| then sp[k].start else n
  }

  /** No match of the pattern starts anywhere in [lo, hi). */
  ghost predicate GapClear(s: string, lo: nat, hi: nat) {
    forall p: nat :: lo <= p < hi ==> NoMatchAt(s, p)
  }

  /** The k-th span is a greedy match that starts after the gap before it. */
  ghost predicate SpanOk(s: string, sp: seq<Span>, k: nat, from: nat)
    requires k < |sp|
  {
    GapStart(sp, k, from) <= sp[k].start && LongestMatch(s, sp[k].start, sp[k].end)
  }

  /** No match starts inside the k-th gap. */
  ghost predicate GapOk(s: string, sp: seq<Span>, k: nat, from: nat)
    requires k <= |sp|
  {
    GapClear(s, GapStart(sp, k, from), GapEnd(sp, k, |s|))
  }

  /**
   * The meaning of findall from position `from`: sp lists greedy matches,
   * left to right and without overlap, and no match starts in any gap
   * between them (before the first, between two, after the last).
   */
  ghost predicate FindAll(s: string, from: nat, sp: seq<Span>) {
    && from <= |s|
    && (forall k: nat :: k < |sp| ==> SpanOk(s, sp, k, from))
    && (forall k: nat :: k <= |sp| ==> GapOk(s, sp, k, from))
  }

  /** A greedy match at i followed by the findall result from its end. */
  lemma FindAllCons(s: string, i: nat, e: nat, rest: seq<Span>)
    requires LongestMatch(s, i, e) && FindAll(s, e, rest)
    ensures FindAll(s, i, [Span(i, e)] + rest)
  {
    var sp := [Span(i, e)] + rest;
    forall k: nat | 1 <= k < |sp| ensures SpanOk(s, sp, k, i) {
      assert SpanOk(s, rest, k - 1, e);
      assert sp[k] == rest[k - 1];
    }
    forall k: nat | 1 <= k <= |sp| ensures GapOk(s, sp, k, i) {
      assert GapOk(s, rest, k - 1, e);
      assert GapEnd(sp, k, |s|) == GapEnd(rest, k - 1, |s|);
    }
    assert SpanOk(s, sp, 0, i);
    assert GapOk(s, sp, 0, i);
  }

  /** The converse of FindAllCons. */
  lemma FindAllTail(s: string, i: nat, sp: seq<Span>)
    requires FindAll(s, i, sp) && sp != [] && sp[0].start == i
    ensures LongestMatch(s, i, sp[0].end) && FindAll(s, sp[0].end, sp[1..])
  {
    var rest, e := sp[1..], sp[0].end;
    assert SpanOk(s, sp, 0, i);
    forall k: nat | k < |rest| ensures SpanOk(s, rest, k, e) {
      assert SpanOk(s, sp, k + 1, i);
      assert sp[k + 1] == rest[k];
    }
    forall k: nat | k <= |rest| ensures GapOk(s, rest, k, e) {
      assert GapOk(s, sp, k + 1, i);
      assert GapEnd(sp, k + 1, |s|) == GapEnd(rest, k, |s|);
    }
  }

  /** A position where nothing matches may be prepended to the first gap. */
  lemma FindAllSkip(s: string, i: nat, sp: seq<Span>)
    requires FindAll(s, i + 1, sp) && NoMatchAt(s, i)
    ensures FindAll(s, i, sp)
  {
    forall k: nat | k < |sp| ensures SpanOk(s, sp, k, i) {
      assert SpanOk(s, sp, k, i + 1);
    }
    forall k: nat | k <= |sp| ensures GapOk(s, sp, k, i) {
      assert GapOk(s, sp, k, i + 1);
    }
  }

  /** The converse of FindAllSkip. */
  lemma FindAllAdvance(s: string, i: nat, sp: seq<Span>)
    requires FindAll(s, i, sp) && i < |s| && (sp == [] || sp[0].start > i)
    ensures NoMatchAt(s, i) && FindAll(s, i + 1, sp)
  {
    assert GapOk(s, sp, 0, i);
    var j := i + 1;
    forall k: nat | k < |sp| ensures SpanOk(s, sp, k, j) {
      assert SpanOk(s, sp, k, i);
    }
    forall k: nat | k <= |sp| ensures GapOk(s, sp, k, j) {
      assert GapOk(s, sp, k, i);
    }
  }

  /** The scanner's spans are the findall matches. */
  lemma {:induction false} ScanIsFindAll(s: string, i: nat)
    requires i <= |s|
    decreases |s| - i
    ensures FindAll(s, i, Scan(s, i))
  {
    if i == |s| {
      assert GapOk(s, [], 0, i);
    } else {
      MatchAtIsLongest(s, i);
      match MatchAt(s, i)
      case Some(e) =>
        ScanIsFindAll(s, e);
        FindAllCons(s, i, e, Scan(s, e));
      case None =>
        ScanIsFindAll(s, i + 1);
        FindAllSkip(s, i, Scan(s, i + 1));
    }
  }

  /** A findall match starts before the end of the text. */
  lemma FindAllFirstInside(s: string, i: nat, sp: seq<Span>)
    requires FindAll(s, i, sp)
    ensures sp != [] ==> i <= sp[0].start < |s|
  {
    if sp != [] {
      assert SpanOk(s, sp, 0, i);
    }
  }

  /** Nothing but the scanner's spans meets the meaning of findall. */
  lemma {:induction false} FindAllUnique(s: string, i: nat, sp: seq<Span>)
    requires FindAll(s, i, sp)
    decreases |s| - i
    ensures sp == Scan(s, i)
  {
    FindAllFirstInside(s, i, sp);
    if i < |s| {
      MatchAtIsLongest(s, i);
      if sp == [] || sp[0].start > i {
        FindAllAdvance(s, i, sp);
        FindAllUnique(s, i + 1, sp);
      } else {
        assert SpanOk(s, sp, 0, i);
        FindAllTail(s, i, sp);
        FindAllUnique(s, sp[0].end, sp[1..]);
      }
    }
  }

  /** Every span lies within s. */
  predicate InBounds(s: string, sp: seq<Span>) {
    forall k :: 0 <= k < |sp| ==> sp[k].start <= sp[k].end <= |s|
  }

  /** The texts of the spans, in order. */
  function Texts(s: string, sp: seq<Span>): (ts: seq<string>)
    requires InBounds(s, sp)
    ensures |ts| == |sp|
    ensures forall k :: 0 <= k < |sp| ==> ts[k] == s[sp[k].start..sp[k].end]
  {
    if sp == [] then [] else [s[sp[0].start..sp[0].end]] + Texts(s, sp[1..])
  }

  /** `http://` or `https://` followed by one or more class characters. */
  predicate IsUrl(t: string) {
    (|t| > 7 && t[..7] == "http://" && AllUrl(t, 7, |t|)) ||
    (|t| > 8 && t[..8] == "https://" && AllUrl(t, 8, |t|))
  }

  /** get_links_text. */
  function GetLinksText(body: string): (links: seq<string>)
    ensures forall k :: 0 <= k < |links| ==> IsUrl(links[k])
  {
    var sp := Scan(body, 0);
    ScanIsFindAll(body, 0);
    forall k | 0 <= k < |sp| ensures IsUrl(body[sp[k].start..sp[k].end]) {
      assert SpanOk(body, sp, k, 0);
      var t := body[sp[k].start..sp[k].end];
      assert forall j :: 0 <= j < |t| ==> t[j] == body[sp[k].start + j];
    }
    Texts(body, sp)
  }

  /** The links are exactly the texts of some findall result, and of no other. */
  ghost predicate IsFindAllResult(body: string, links: seq<string>) {
    exists sp :: FindAll(body, 0, sp) && InBounds(body, sp) && links == Texts(body, sp)
  }

  lemma GetLinksTextIsFindAll(body: string)
    ensures IsFindAllResult(body, GetLinksText(body))
    ensures forall links :: IsFindAllResult(body, links) ==> links == GetLinksText(body)
  {
    ScanIsFindAll(body, 0);
    forall links | IsFindAllResult(body, links) ensures links == GetLinksText(body) {
      var sp :| FindAll(body, 0, sp) && InBounds(body, sp) && links == Texts(body, sp);
      FindAllUnique(body, 0, sp);
    }
  }

  /** Text without any match of the pattern yields no links, and only such text does. */
  lemma NoMatchNoLinks(body: string)
    ensures GetLinksText(body) == [] <==> GapClear(body, 0, |body|)
  {
    ScanIsFindAll(body, 0);
    if GapClear(body, 0, |body|) {
      assert GapOk(body, [], 0, 0);
      FindAllUnique(body, 0, []);
    }
    if GetLinksText(body) == [] {
      assert Scan(body, 0) == [];
      assert GapOk(body, [], 0, 0);
    }
  }
}
