/**
 * How the conversation window shows a message's text: the text is split with
 * the regular expression `/(https?:\/\/[^\s]+)/g` and every piece that the
 * same expression matches is shown as a link, every other piece as plain
 * text.
 */
module ChatLinks {
  import opened Strings

  /** One piece of a shown message. */
  datatype Segment = Plain(text: string) | Link(url: string)

  predicate HasPrefixAt(s: string, i: nat, prefix: string) {
    i + |prefix| <= |s| && forall k :: 0 <= k < |prefix| ==> s[i + k] == prefix[k]
  }

  /** The number of non-white-space characters in a row from position `i` on. */
  function RunLength(s: string, i: nat): (n: nat)
    requires i <= |s|
    ensures i + n <= |s|
    ensures forall k :: i <= k < i + n ==> !IsWhitespace(s[k])
    ensures i + n == |s| || IsWhitespace(s[i + n])
    decreases |s| - i
  {
    if i < |s| && !IsWhitespace(s[i]) then 1 + RunLength(s, i + 1) else 0
  }

  /** A run of non-white space is at least as long as any white-space-free stretch it starts. */
  lemma {:induction false} RunCovers(s: string, i: nat, k: nat)
    requires i + k <= |s|
    requires forall j :: i <= j < i + k ==> !IsWhitespace(s[j])
    ensures RunLength(s, i) >= k
    decreases k
  {
    if k > 0 {
      RunCovers(s, i + 1, k - 1);
    }
  }

  /** The expression `https?:\/\/[^\s]+` matches at position `i`. */
  predicate UrlAt(s: string, i: nat) {
    (HasPrefixAt(s, i, "https://") && i + 8 < |s| && !IsWhitespace(s[i + 8]))
    || (HasPrefixAt(s, i, "http://") && i + 7 < |s| && !IsWhitespace(s[i + 7]))
  }

  /** The greedy match at `i` is the whole run of non-white space from `i`. */
  lemma UrlRun(s: string, i: nat)
    requires UrlAt(s, i)
    ensures i < |s| && RunLength(s, i) > 7
  {
    if HasPrefixAt(s, i, "https://") && i + 8 < |s| && !IsWhitespace(s[i + 8]) {
      assert forall j :: i <= j < i + 8 ==> s[j] == "https://"[j - i];
      RunCovers(s, i, 9);
    } else {
      assert forall j :: i <= j < i + 7 ==> s[j] == "http://"[j - i];
      RunCovers(s, i, 8);
    }
  }

  /** `part.match(urlRegex)` is truthy: the expression matches somewhere in `part`. */
  predicate ContainsUrl(part: string) {
    exists i :: 0 <= i < |part| && UrlAt(part, i)
  }

  /**
   * `text.split(urlRegex)` from split position `p` on, with the scan at `q`:
   * the text before each match, then the match itself (the captured group),
   * and finally the rest of the text.
   */
  function SplitFrom(s: string, p: nat, q: nat): seq<string>
    requires p <= q <= |s|
    decreases |s| - q
  {
    if q == |s| then [s[p..]]
    else if UrlAt(s, q) then
      UrlRun(s, q);
      var e := q + RunLength(s, q);
      [s[p..q], s[q..e]] + SplitFrom(s, e, e)
    else SplitFrom(s, p, q + 1)
  }

  function SplitUrls(text: string): seq<string> {
    SplitFrom(text, 0, 0)
  }

  function Classify(part: string): Segment {
    if ContainsUrl(part) then Link(part) else Plain(part)
  }

  /** `renderMessageContent`: the pieces of the text, each shown as a link or as plain text. */
  function RenderContent(text: string): (r: seq<Segment>)
    ensures |r| == |SplitUrls(text)|
  {
    var parts := SplitUrls(text);
    seq(|parts|, i requires 0 <= i < |parts| => Classify(parts[i]))
  }

  function Concat(parts: seq<string>): string {
    if |parts| == 0 then "" else parts[0] + Concat(parts[1..])
  }

  function SegmentText(seg: Segment): string {
    match seg
    case Plain(t) => t
    case Link(u) => u
  }

  /** A whole match of the expression: a URL prefix, then non-white space only. */
  predicate IsUrl(u: string) {
    UrlAt(u, 0) && forall k :: 0 <= k < |u| ==> !IsWhitespace(u[k])
  }

  /** What `split` produces: text without any match at even positions, matches at odd ones. */
  predicate Alternating(parts: seq<string>) {
    |parts| % 2 == 1
    && (forall i :: 0 <= i < |parts| && i % 2 == 0 ==> !ContainsUrl(parts[i]))
    && (forall i :: 0 <= i < |parts| && i % 2 == 1 ==> IsUrl(parts[i]))
  }

  /** A match inside a piece of the text is a match in the text itself. */
  lemma UrlAtSlice(s: string, p: nat, q: nat, i: nat)
    requires p <= q <= |s| && i < q - p
    requires UrlAt(s[p..q], i)
    ensures UrlAt(s, p + i)
  {
    var t := s[p..q];
    assert forall k :: 0 <= k < |t| ==> t[k] == s[p + k];
  }

  /** Text in which no position starts a match contains no match. */
  lemma NoUrlInSlice(s: string, p: nat, q: nat)
    requires p <= q <= |s|
    requires forall j :: p <= j < q ==> !UrlAt(s, j)
    ensures !ContainsUrl(s[p..q])
  {
    if ContainsUrl(s[p..q]) {
      var i :| 0 <= i < q - p && UrlAt(s[p..q], i);
      UrlAtSlice(s, p, q, i);
    }
  }

  /** A match cut out of the text is a whole match on its own. */
  lemma MatchIsUrl(s: string, q: nat)
    requires UrlAt(s, q)
    ensures q + RunLength(s, q) <= |s| && IsUrl(s[q..q + RunLength(s, q)])
  {
    UrlRun(s, q);
    var u := s[q..q + RunLength(s, q)];
    assert forall k :: 0 <= k < |u| ==> u[k] == s[q + k];
  }

  lemma ConcatPair(a: string, b: string, rest: seq<string>)
    ensures Concat([a, b] + rest) == a + b + Concat(rest)
  {
    assert ([a, b] + rest)[1..] == [b] + rest;
    assert ([b] + rest)[1..] == rest;
  }

  lemma AlternatingCons(a: string, b: string, rest: seq<string>)
    requires !ContainsUrl(a) && IsUrl(b) && Alternating(rest)
    ensures Alternating([a, b] + rest)
  {
    var parts := [a, b] + rest;
    assert forall i :: 2 <= i < |parts| ==> parts[i] == rest[i - 2];
  }

  /** The split from position `p`, scanning from `q`, puts the text back together. */
  lemma {:induction false} SplitFromConcat(s: string, p: nat, q: nat)
    requires p <= q <= |s|
    ensures Concat(SplitFrom(s, p, q)) == s[p..]
    decreases |s| - q
  {
    if q == |s| {
      assert Concat([s[p..]]) == s[p..] + Concat([]);
    } else if UrlAt(s, q) {
      var e := q + RunLength(s, q);
      assert q < e by {
        UrlRun(s, q);
      }
      var rest := SplitFrom(s, e, e);
      calc {
        Concat(SplitFrom(s, p, q));
        Concat([s[p..q], s[q..e]] + rest);
        { ConcatPair(s[p..q], s[q..e], rest); }
        s[p..q] + s[q..e] + Concat(rest);
        { SplitFromConcat(s, e, e); }
        s[p..q] + s[q..e] + s[e..];
        s[p..];
      }
    } else {
      SplitFromConcat(s, p, q + 1);
    }
  }

  /**
   * The split from position `p`, scanning from `q` with no match between
   * them, alternates text without a match and whole matches.
   */
  lemma {:induction false} SplitFromAlternating(s: string, p: nat, q: nat)
    requires p <= q <= |s|
    requires forall j :: p <= j < q ==> !UrlAt(s, j)
    ensures Alternating(SplitFrom(s, p, q))
    decreases |s| - q
  {
    if q == |s| {
      NoUrlInSlice(s, p, q);
      assert s[p..q] == s[p..];
    } else if UrlAt(s, q) {
      var e := q + RunLength(s, q);
      assert q < e by {
        UrlRun(s, q);
      }
      SplitFromAlternating(s, e, e);
      AlternatingAtMatch(s, p, q);
    } else {
      SplitFromAlternating(s, p, q + 1);
    }
  }

  /** At a match, the text before it and the match itself extend an alternating rest. */
  lemma AlternatingAtMatch(s: string, p: nat, q: nat)
    requires p <= q < |s| && UrlAt(s, q)
    requires forall j :: p <= j < q ==> !UrlAt(s, j)
    requires Alternating(SplitFrom(s, q + RunLength(s, q), q + RunLength(s, q)))
    ensures Alternating(SplitFrom(s, p, q))
  {
    var e := q + RunLength(s, q);
    var rest := SplitFrom(s, e, e);
    assert SplitFrom(s, p, q) == [s[p..q], s[q..e]] + rest;
    NoUrlInSlice(s, p, q);
    MatchIsUrl(s, q);
    AlternatingCons(s[p..q], s[q..e], rest);
  }

  /** Every URL piece begins with `http://` or `https://` and holds no white space. */
  lemma UrlShape(u: string)
    requires IsUrl(u)
    ensures StartsWith(u, "http://") || StartsWith(u, "https://")
    ensures forall k :: 0 <= k < |u| ==> !IsWhitespace(u[k])
  {
  }

  /**
   * The shown pieces of a message put its text back together exactly; they
   * alternate plain text and links, starting and ending with plain text (possibly
   * empty); every link begins with `http://` or `https://` and holds no white
   * space, and no plain piece contains a URL.
   */
  lemma {:induction false} RenderContentSound(text: string)
    ensures Concat(SplitUrls(text)) == text
    ensures |RenderContent(text)| % 2 == 1
    ensures forall i :: 0 <= i < |RenderContent(text)| ==>
      SegmentText(RenderContent(text)[i]) == SplitUrls(text)[i]
    ensures forall i :: 0 <= i < |RenderContent(text)| ==> (RenderContent(text)[i].Link? <==> i % 2 == 1)
    ensures forall i :: 0 <= i < |RenderContent(text)| && RenderContent(text)[i].Link? ==>
      var u := RenderContent(text)[i].url;
      (StartsWith(u, "http://") || StartsWith(u, "https://"))
      && forall k :: 0 <= k < |u| ==> !IsWhitespace(u[k])
  {
    SplitFromConcat(text, 0, 0);
    SplitFromAlternating(text, 0, 0);
    assert text[0..] == text;
    var parts := SplitUrls(text);
    var r := RenderContent(text);
    forall i | 0 <= i < |r| && i % 2 == 1 ensures r[i] == Link(parts[i]) {
      assert IsUrl(parts[i]);
      assert UrlAt(parts[i], 0);
      UrlRun(parts[i], 0);
    }
    forall i | 0 <= i < |r| && r[i].Link?
      ensures (StartsWith(r[i].url, "http://") || StartsWith(r[i].url, "https://"))
      ensures forall k :: 0 <= k < |r[i].url| ==> !IsWhitespace(r[i].url[k])
    {
      UrlShape(parts[i]);
    }
  }
}
