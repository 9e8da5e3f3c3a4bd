/**
 * The summary text that process_message posts first: a fixed
 * concatenation of the envelope fields, the subject, the Reply-To value and
 * the two counts, with Python's `str` of an int and `','.join`.
 */
module SummaryText {
  import opened Wrappers

  predicate IsDigit(c: char) {
    '0' <= c <= '9'
  }

  predicate AllDigits(s: string) {
    forall i :: 0 <= i < |s| ==> IsDigit(s[i])
  }

  function DigitChar(d: nat): (c: char)
    requires d < 10
    ensures IsDigit(c)
  {
    ('0' as int + d) as char
  }

  /** `str(n)` for a non-negative int: decimal digits without leading zeros. */
  function Decimal(n: nat): (s: string)
    decreases n
    ensures |s| >= 1 && AllDigits(s)
    ensures n > 0 ==> s[0] != '0'
  {
    if n < 10 then [DigitChar(n)] else Decimal(n / 10) + [DigitChar(n % 10)]
  }

  /** The number a string of decimal digits denotes. */
  function DecimalValue(s: string): nat
    requires AllDigits(s)
    decreases |s|
  {
    if s == [] then 0 else 10 * DecimalValue(s[..|s| - 1]) + (s[|s| - 1] as int - '0' as int)
  }

  /** Reading the digits back gives the number. */
  lemma {:induction false} DecimalRoundTrip(n: nat)
    decreases n
    ensures DecimalValue(Decimal(n)) == n
  {
    if n >= 10 {
      var s := Decimal(n);
      assert s[..|s| - 1] == Decimal(n / 10);
      DecimalRoundTrip(n / 10);
    }
  }

  /** `','.join(xs)`. */
  function Join(xs: seq<string>): string
    decreases |xs|
  {
    if xs == [] then "" else if |xs| == 1 then xs[0] else xs[0] + "," + Join(xs[1..])
  }

  /** The first position of c in s. */
  function IndexOf(s: string, c: char): (i: nat)
    requires c in s
    ensures i < |s| && s[i] == c && c !in s[..i]
  {
    if s[0] == c then 0 else 1 + IndexOf(s[1..], c)
  }

  /** The first comma of x + "," + rest is the one after x when x has none. */
  lemma {:induction false} IndexOfAfterPrefix(x: string, rest: string)
    requires ',' !in x
    decreases |x|
    ensures IndexOf(x + "," + rest, ',') == |x|
  {
    var s := x + "," + rest;
    if x != [] {
      assert s[0] == x[0];
      assert s[1..] == x[1..] + "," + rest;
      IndexOfAfterPrefix(x[1..], rest);
    }
  }

  /** `s.split(',')`. */
  function Split(s: string): (parts: seq<string>)
    decreases |s|
  {
    if ',' in s then
      var i := IndexOf(s, ',');
      [s[..i]] + Split(s[i + 1..])
    else [s]
  }

  /** When no recipient contains a comma, the joined field splits back into the recipients. */
  lemma {:induction false} SplitJoin(xs: seq<string>)
    requires xs != [] && forall k :: 0 <= k < |xs| ==> ',' !in xs[k]
    decreases |xs|
    ensures Split(Join(xs)) == xs
  {
    if |xs| > 1 {
      var s, x := Join(xs), xs[0];
      assert s == x + "," + Join(xs[1..]);
      IndexOfAfterPrefix(x, Join(xs[1..]));
      var i := IndexOf(s, ',');
      assert s[..i] == x;
      assert s[i + 1..] == Join(xs[1..]);
      SplitJoin(xs[1..]);
    }
  }

  /** `'{}'.format(subject)` for the Subject header: the text "None" when it is absent. */
  function RenderSubject(subject: Option<string>): string {
    match subject
    case Some(s) => s
    case None => "None"
  }

  /**
   * msg_text. There is no newline between the subject and "Reply-To:" nor
   * between the Reply-To value and "Num Links".
   */
  function Summary(peer: string, mailfrom: string, rcpttos: seq<string>, subject: string,
                   replyTo: string, numLinks: nat, numAtt: nat): string
  {
    "IP : " + peer + "\nFrom : " + mailfrom + "\n" +
    "Rcpts : " + Join(rcpttos) + "\nSubject : " + subject +
    "Reply-To: " + replyTo +
    "Num Links : " + Decimal(numLinks) + "\nNum Att : " + Decimal(numAtt)
  }

  /** The text after the last c in s (all of s when there is none). */
  function AfterLast(s: string, c: char): string
    decreases |s|
  {
    if s == [] then [] else if s[|s| - 1] == c then [] else AfterLast(s[..|s| - 1], c) + [s[|s| - 1]]
  }

  /** The text before the last c in s (empty when there is none). */
  function BeforeLast(s: string, c: char): string
    decreases |s|
  {
    if s == [] then [] else if s[|s| - 1] == c then s[..|s| - 1] else BeforeLast(s[..|s| - 1], c)
  }

  lemma {:induction false} SplitAtLast(a: string, c: char, b: string)
    requires c !in b
    decreases |b|
    ensures AfterLast(a + [c] + b, c) == b
    ensures BeforeLast(a + [c] + b, c) == a
  {
    var s := a + [c] + b;
    if b == [] {
      assert s[..|s| - 1] == a;
    } else {
      var init := b[..|b| - 1];
      assert s[..|s| - 1] == a + [c] + init;
      SplitAtLast(a, c, init);
      assert init + [b[|b| - 1]] == b;
    }
  }

  /**
   * How a reader of the posted text recovers the two counts: the number ending
   * the second-to-last line and the number ending the last line.
   */
  function ReportedCounts(text: string): Option<(nat, nat)> {
    var links, atts := AfterLast(BeforeLast(text, '\n'), ' '), AfterLast(text, ' ');
    if AllDigits(links) && AllDigits(atts) then Some((DecimalValue(links), DecimalValue(atts))) else None
  }

  /**
   * In a + m + b, where b has no c: a last character c of m is the last c of
   * the whole, and a first character c of m that is its only one leaves a before it.
   */
  lemma SplitAround(a: string, m: string, b: string, c: char)
    requires |m| > 0 && c !in b
    ensures m[|m| - 1] == c ==> AfterLast(a + m + b, c) == b
    ensures m[0] == c && c !in m[1..] ==> BeforeLast(a + m + b, c) == a
  {
    if m[|m| - 1] == c {
      assert a + m + b == (a + m[..|m| - 1]) + [c] + b;
      SplitAtLast(a + m[..|m| - 1], c, b);
    }
    if m[0] == c && c !in m[1..] {
      assert a + m + b == a + [c] + (m[1..] + b);
      SplitAtLast(a, c, m[1..] + b);
    }
  }

  /** Whatever the header fields contain, the summary reports the two counts faithfully. */
  lemma SummaryReportsCounts(peer: string, mailfrom: string, rcpttos: seq<string>, subject: string,
                             replyTo: string, numLinks: nat, numAtt: nat)
    ensures ReportedCounts(Summary(peer, mailfrom, rcpttos, subject, replyTo, numLinks, numAtt))
         == Some((numLinks, numAtt))
  {
    var dl, da := Decimal(numLinks), Decimal(numAtt);
    var fields := "IP : " + peer + "\nFrom : " + mailfrom + "\n" +
                  "Rcpts : " + Join(rcpttos) + "\nSubject : " + subject +
                  "Reply-To: " + replyTo;
    var linksLabel, attLabel := "Num Links : ", "\nNum Att : ";
    assert Summary(peer, mailfrom, rcpttos, subject, replyTo, numLinks, numAtt)
        == fields + linksLabel + dl + attLabel + da;
    assert forall i :: 0 <= i < |da| ==> IsDigit(da[i]);
    assert forall i :: 0 <= i < |dl| ==> IsDigit(dl[i]);
    assert attLabel[|attLabel| - 1] == ' ' && attLabel[0] == '\n' && '\n' !in attLabel[1..];
    assert linksLabel[|linksLabel| - 1] == ' ';
    SplitAround(fields + linksLabel + dl, attLabel, da, ' ');
    SplitAround(fields + linksLabel + dl, attLabel, da, '\n');
    SplitAround(fields, linksLabel, dl, ' ');
    DecimalRoundTrip(numLinks);
    DecimalRoundTrip(numAtt);
  }
}
