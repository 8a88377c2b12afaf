/** The navigation directive a generated answer may carry, matched as the
    regular expression `\[ACTION:BROWSER_NAVIGATE\("([^"]+)"\)\]` without the
    global flag (leftmost match only), and the continuation prompt built from
    the page text once the page has been extracted (App.tsx:222-238). */
module Directive {
  import opened Types
  import opened Text

  const Opener: string := "[ACTION:BROWSER_NAVIGATE(\""
  const Closer: string := "\")]"

  predicate QuoteFree(u: string) {
    forall k :: 0 <= k < |u| ==> u[k] != '"'
  }

  /** The pattern matches `s` at position `i` and captures `u`. */
  predicate MatchAt(s: string, i: int, u: string) {
    && 0 <= i
    && i + |Opener| + |u| + |Closer| <= |s|
    && s[i..i + |Opener|] == Opener
    && u != []
    && QuoteFree(u)
    && s[i + |Opener|..i + |Opener| + |u|] == u
    && s[i + |Opener| + |u|..i + |Opener| + |u| + |Closer|] == Closer
  }

  /** Length of the run of characters other than `"` starting at `k`. */
  function QuoteFreeRun(s: string, k: nat): (n: nat)
    requires k <= |s|
    decreases |s| - k
    ensures k + n <= |s|
    ensures forall j :: k <= j < k + n ==> s[j] != '"'
    ensures k + n == |s| || s[k + n] == '"'
  {
    if k < |s| && s[k] != '"' then 1 + QuoteFreeRun(s, k + 1) else 0
  }

  /** One attempt of the matcher at position `i`: the opener, then the greedy
      `[^"]+` (which cannot give back characters usefully, since the next
      character must be `"`), then the closer. */
  function MatchHere(s: string, i: nat): Option<string>
    requires i <= |s|
  {
    if i + |Opener| <= |s| && s[i..i + |Opener|] == Opener then
      var j := i + |Opener|;
      var n := QuoteFreeRun(s, j);
      if n > 0 && j + n + |Closer| <= |s| && s[j + n..j + n + |Closer|] == Closer
      then Some(s[j..j + n])
      else None
    else None
  }

  lemma MatchHereSound(s: string, i: nat, u: string)
    requires i <= |s| && MatchHere(s, i) == Some(u)
    ensures MatchAt(s, i, u)
  {
    var j := i + |Opener|;
    var n := QuoteFreeRun(s, j);
    assert u == s[j..j + n];
    forall k | 0 <= k < |u| ensures u[k] != '"' {
      assert u[k] == s[j + k];
    }
  }

  lemma MatchHereComplete(s: string, i: nat, u: string)
    requires MatchAt(s, i, u)
    ensures MatchHere(s, i) == Some(u)
  {
    var j := i + |Opener|;
    var n := QuoteFreeRun(s, j);
    forall k | j <= k < j + |u| ensures s[k] != '"' {
      assert s[k] == u[k - j];
    }
    assert s[j + |u|] == Closer[0] == '"';
    assert n == |u|;
  }

  lemma NoMatchHere(s: string, i: nat)
    requires i <= |s| && MatchHere(s, i).None?
    ensures forall u :: !MatchAt(s, i, u)
  {
    forall u | MatchAt(s, i, u) ensures false {
      MatchHereComplete(s, i, u);
    }
  }

  /** At one position the pattern captures at most one string. */
  lemma MatchAtUnique(s: string, i: nat, u: string, v: string)
    requires MatchAt(s, i, u) && MatchAt(s, i, v)
    ensures u == v
  {
    MatchHereComplete(s, i, u);
    MatchHereComplete(s, i, v);
  }

  datatype Found = Found(pos: nat, url: string)

  /** The leftmost match at or after position `i`. */
  function Scan(s: string, i: nat): (r: Option<Found>)
    requires i <= |s|
    decreases |s| - i
    ensures r.Some? ==> i <= r.value.pos && MatchAt(s, r.value.pos, r.value.url)
    ensures r.Some? ==> forall j, v :: i <= j < r.value.pos ==> !MatchAt(s, j, v)
    ensures r.None? ==> forall j, v :: i <= j ==> !MatchAt(s, j, v)
  {
    if i == |s| then None
    else
      match MatchHere(s, i)
      case Some(u) => MatchHereSound(s, i, u); Some(Found(i, u))
      case None => NoMatchHere(s, i); Scan(s, i + 1)
  }

  /** `finalContent.match(navRegex)` with its capture group: the URL of the
      leftmost directive, if any. */
  function FindDirective(s: string): (r: Option<string>)
    ensures r.Some? ==> r.value != [] && QuoteFree(r.value)
  {
    match Scan(s, 0)
    case Some(f) => Some(f.url)
    case None => None
  }

  /** The directive is found exactly when the pattern matches somewhere, and
      what is found is the capture of the leftmost match. */
  lemma FindDirectiveIsLeftmost(s: string)
    ensures FindDirective(s).Some? <==> exists i, u :: MatchAt(s, i, u)
    ensures FindDirective(s).Some? ==>
              exists i :: MatchAt(s, i, FindDirective(s).value)
                          && forall j, v :: 0 <= j < i ==> !MatchAt(s, j, v)
  {
    match Scan(s, 0)
    case Some(f) =>
      assert MatchAt(s, f.pos, f.url);
    case None =>
  }

  /** A directive written after text containing no `[` is the one found:
      extracting reverses embedding. */
  lemma {:induction false} DirectiveRoundTrip(pre: string, url: string, post: string)
    requires forall k :: 0 <= k < |pre| ==> pre[k] != '['
    requires url != [] && QuoteFree(url)
    ensures FindDirective(pre + Opener + url + Closer + post) == Some(url)
  {
    var s := pre + Opener + url + Closer + post;
    var i := |pre|;
    assert s[i..i + |Opener|] == Opener;
    assert s[i + |Opener|..i + |Opener| + |url|] == url;
    assert s[i + |Opener| + |url|..i + |Opener| + |url| + |Closer|] == Closer;
    assert MatchAt(s, i, url);
    forall j, v | 0 <= j < i ensures !MatchAt(s, j, v) {
      assert s[j] == pre[j] && pre[j] != '[';
      assert Opener[0] == '[';
      if j + |Opener| <= |s| {
        assert s[j..j + |Opener|][0] == s[j];
      }
    }
    var r := FindDirective(s);
    FindDirectiveIsLeftmost(s);
    var p :| MatchAt(s, p, r.value) && forall j, v :: 0 <= j < p ==> !MatchAt(s, j, v);
    assert p == i;
    MatchAtUnique(s, i, r.value, url);
  }

  const NoTextFallback: string := "Could not extract text from page."
  const ContinuationHeader: string :=
    "I have navigated to the page. Here is the extracted text content. Please analyze it and continue with the plan:\n\n"
  const MaxPageText: nat := 10000

  /** `textContent.replace(/\s\s+/g, ' ').trim() || fallback`. */
  function ReadableText(textContent: string): (r: string)
    ensures r != []
  {
    var t := Trim(Collapse(textContent));
    if t == [] then NoTextFallback else t
  }

  /** The page text is kept character for character apart from whitespace,
      which is single, never leading and never trailing; a page without any
      text reads as the fallback sentence. */
  lemma ReadableTextOfPage(textContent: string)
    ensures NonSpace(textContent) == [] ==> ReadableText(textContent) == NoTextFallback
    ensures NonSpace(textContent) != [] ==>
              var r := ReadableText(textContent);
              && NonSpace(r) == NonSpace(textContent)
              && NoDoubleSpace(r)
              && !IsSpace(r[0]) && !IsSpace(r[|r| - 1])
  {
    CollapseKeepsText(textContent);
    TrimKeepsText(Collapse(textContent));
  }

  /** Two stretches of text separated by a run of two or more whitespace
      characters read as the two texts joined by one space. */
  lemma ReadableTextJoinsAtRun(a: string, w: string, b: string)
    requires a != [] && !IsSpace(a[0]) && !IsSpace(a[|a| - 1])
    requires b != [] && !IsSpace(b[0]) && !IsSpace(b[|b| - 1])
    requires AllSpaces(w) && |w| >= 2
    ensures ReadableText(a + w + b) == ReadableText(a) + [' '] + ReadableText(b)
  {
    CollapseRun(a, w, b);
    var ca, cb := Collapse(a), Collapse(b);
    var x := ca + [' '] + cb;
    assert x[0] == ca[0] && x[|x| - 1] == cb[|cb| - 1];
    TrimFixesTrimmed(x);
    TrimFixesTrimmed(ca);
    TrimFixesTrimmed(cb);
  }

  predicate IsContinuation(prompt: string) {
    |ContinuationHeader| <= |prompt| && prompt[..|ContinuationHeader|] == ContinuationHeader
  }

  /** The prompt of the continuation hop: the fixed header followed by at most
      10000 characters from the start of the readable page text. */
  function ContinuationPrompt(textContent: string): (r: string)
    ensures IsContinuation(r)
    ensures |r| <= |ContinuationHeader| + MaxPageText
    ensures var body := r[|ContinuationHeader|..];
            var page := ReadableText(textContent);
            && body != []
            && |body| <= |page|
            && body == page[..|body|]
            && (|page| <= MaxPageText ==> body == page)
            && (|page| > MaxPageText ==> |body| == MaxPageText)
  {
    var body := Prefix(ReadableText(textContent), MaxPageText);
    var r := ContinuationHeader + body;
    assert r[|ContinuationHeader|..] == body;
    assert r[..|ContinuationHeader|] == ContinuationHeader;
    r
  }
}
