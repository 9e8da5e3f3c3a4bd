/**
 * The href filter of get_links_html: anchors whose href matches
 * `^http.*://` under `re.search`, taken in document order. The HTML parser
 * itself is not modelled; it is represented by the anchors it reports.
 */
module HtmlLinks {
  import opened Wrappers

  /** An anchor element as the HTML parser reports it: its href attribute, if any. */
  datatype Anchor = Anchor(href: Option<string>)

  /** `://` starts at position k of h. */
  predicate SeparatorAt(h: string, k: nat) {
    k + 3 <= |h| && h[k..k + 3] == "://"
  }

  /** No newline in h[a..k]. */
  predicate NoNewline(h: string, a: nat, k: nat)
    requires k <= |h|
  {
    forall i :: a <= i < k ==> h[i] != '\n'
  }

  /**
   * The regex `^http.*://` searched in h: "http" at the start, then `://`
   * somewhere after it with no newline in between (`.` does not match a newline).
   */
  ghost predicate HrefPattern(h: string) {
    |h| >= 4 && h[..4] == "http" &&
    exists k: nat :: 4 <= k && SeparatorAt(h, k) && NoNewline(h, 4, k)
  }

  /** Looks for `://` from position j, giving up at the first newline. */
  predicate SeparatorFrom(h: string, j: nat)
    decreases |h| - j
  {
    j + 3 <= |h| && (SeparatorAt(h, j) || (h[j] != '\n' && SeparatorFrom(h, j + 1)))
  }

  /** The filter as the regex engine runs it. */
  predicate HrefMatches(h: string) {
    |h| >= 4 && h[..4] == "http" && SeparatorFrom(h, 4)
  }

  /** A successful search from j has found a separator with no newline before it. */
  lemma {:induction false} SeparatorFromSound(h: string, j: nat)
    requires SeparatorFrom(h, j)
    decreases |h| - j
    ensures exists k: nat :: j <= k && SeparatorAt(h, k) && NoNewline(h, j, k)
  {
    if SeparatorAt(h, j) {
      assert NoNewline(h, j, j);
    } else {
      SeparatorFromSound(h, j + 1);
      var k: nat :| j + 1 <= k && SeparatorAt(h, k) && NoNewline(h, j + 1, k);
      assert NoNewline(h, j, k);
    }
  }

  /** Every separator reachable from j without crossing a newline is found by the search. */
  lemma {:induction false} SeparatorFromComplete(h: string, j: nat, k: nat)
    requires j <= k && SeparatorAt(h, k) && NoNewline(h, j, k)
    decreases k - j
    ensures SeparatorFrom(h, j)
  {
    if j < k {
      assert h[j] != '\n';
      SeparatorFromComplete(h, j + 1, k);
    }
  }

  /** The filter agrees with the regex. */
  lemma HrefMatchesPattern(h: string)
    ensures HrefMatches(h) <==> HrefPattern(h)
  {
    if HrefMatches(h) {
      SeparatorFromSound(h, 4);
    }
    if HrefPattern(h) {
      var k: nat :| 4 <= k && SeparatorAt(h, k) && NoNewline(h, 4, k);
      SeparatorFromComplete(h, 4, k);
    }
  }

  /** An anchor whose href the filter accepts. */
  predicate Keeps(a: Anchor) {
    a.href.Some? && HrefMatches(a.href.value)
  }

  /** The links get_links_html returns for the anchors, in document order. */
  function HrefFilter(anchors: seq<Anchor>): seq<string>
    decreases |anchors|
  {
    if anchors == [] then []
    else
      var last := anchors[|anchors| - 1];
      HrefFilter(anchors[..|anchors| - 1]) + (if Keeps(last) then [last.href.value] else [])
  }

  /** Filtering a document is filtering its two halves and joining the results: document order is kept. */
  lemma {:induction false} HrefFilterAppend(a: seq<Anchor>, b: seq<Anchor>)
    decreases |b|
    ensures HrefFilter(a + b) == HrefFilter(a) + HrefFilter(b)
  {
    if b == [] {
      assert a + b == a;
    } else {
      var init := b[..|b| - 1];
      assert (a + b)[..|a + b| - 1] == a + init;
      assert (a + b)[|a + b| - 1] == b[|b| - 1];
      HrefFilterAppend(a, init);
    }
  }

  /** A link is returned exactly when some anchor carries it as an accepted href. */
  lemma {:induction false} HrefFilterMembers(anchors: seq<Anchor>)
    decreases |anchors|
    ensures forall h :: h in HrefFilter(anchors) <==>
              (HrefMatches(h) && exists i :: 0 <= i < |anchors| && anchors[i].href == Some(h))
  {
    if anchors != [] {
      var init := anchors[..|anchors| - 1];
      HrefFilterMembers(init);
      assert forall i :: 0 <= i < |init| ==> init[i] == anchors[i];
      assert anchors == init + [anchors[|anchors| - 1]];
    }
  }
}
