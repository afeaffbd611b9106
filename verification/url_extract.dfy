/**
  * The URL scan of the issue pipeline: Python's `re.findall(r"https?://\S+", text)`.
  *
  * `findall` scans left to right. At each position it tries the pattern; on a
  * match it records the matched text and resumes right after it, otherwise it
  * moves on by one character. The pattern matches `http`, an optional `s`,
  * `://`, and then the longest non-empty run of non-whitespace characters.
  */
module UrlExtract {

  /** Python's Unicode whitespace (`\s` in a str pattern, `str.isspace`):
      TAB to CR, the separators U+001C to U+001F, SPACE, NEL, NBSP, and the
      Unicode space, line and paragraph separators. */
  predicate IsSpace(c: char) {
    ('\t' <= c <= '\r') || ('\U{1C}' <= c <= ' ') || c == '\U{85}' || c == '\U{A0}'
    || c == '\U{1680}' || ('\U{2000}' <= c <= '\U{200A}') || c == '\U{2028}' || c == '\U{2029}'
    || c == '\U{202F}' || c == '\U{205F}' || c == '\U{3000}'
  }

  /** No printable ASCII character other than the blank is whitespace. */
  lemma PrintableNotSpace(c: char)
    requires '!' <= c <= '~'
    ensures !IsSpace(c)
  {
  }

  /** The characters of the two schemes are not whitespace. */
  lemma SchemeCharsNotSpace()
    ensures !IsSpace('h') && !IsSpace('t') && !IsSpace('p') && !IsSpace('s')
    ensures !IsSpace(':') && !IsSpace('/')
  {
  }

  /** `t` holds `http://` at position `p`. */
  predicate HttpAt(t: string, p: nat) {
    p + 7 <= |t| && t[p] == 'h' && t[p + 1] == 't' && t[p + 2] == 't' && t[p + 3] == 'p'
    && t[p + 4] == ':' && t[p + 5] == '/' && t[p + 6] == '/'
  }

  /** `t` holds `https://` at position `p`. */
  predicate HttpsAt(t: string, p: nat) {
    p + 8 <= |t| && t[p] == 'h' && t[p + 1] == 't' && t[p + 2] == 't' && t[p + 3] == 'p'
    && t[p + 4] == 's' && t[p + 5] == ':' && t[p + 6] == '/' && t[p + 7] == '/'
  }

  /** Length of the `https?://` part the pattern consumes at `p`, or 0.
      The optional `s` is greedy; when `https://` is present but no
      non-space follows it, backing off to `http` cannot help, since the
      next character is then `s`, not `:`. */
  function SchemeLen(t: string, p: nat): nat {
    if HttpsAt(t, p) then 8 else if HttpAt(t, p) then 7 else 0
  }

  /** The pattern matches at `p`: a scheme followed by at least one non-space. */
  predicate MatchesAt(t: string, p: nat) {
    SchemeLen(t, p) > 0 && p + SchemeLen(t, p) < |t| && !IsSpace(t[p + SchemeLen(t, p)])
  }

  /** End of the run of non-space characters that starts at `i` (what the
      greedy `\S+` consumes). */
  function RunEnd(t: string, i: nat): (e: nat)
    requires i <= |t|
    ensures i <= e <= |t|
    decreases |t| - i
  {
    if i == |t| || IsSpace(t[i]) then i else RunEnd(t, i + 1)
  }

  /** `RunEnd` is the end of the longest run of non-spaces from `i`: every
      character before it is a non-space, and it is a space or the end. */
  lemma {:induction false} RunEndIsLongestRun(t: string, i: nat)
    requires i <= |t|
    ensures RunEnd(t, i) == |t| || IsSpace(t[RunEnd(t, i)])
    ensures forall j :: i <= j < RunEnd(t, i) ==> !IsSpace(t[j])
    decreases |t| - i
  {
    if i < |t| && !IsSpace(t[i]) {
      RunEndIsLongestRun(t, i + 1);
    }
  }

  /** A matched region `t[start..end]`. */
  datatype Span = Span(start: nat, end: nat)

  /** `s` is a match of the pattern in `t`: it starts where the pattern
      matches and ends where the greedy run of non-spaces ends. */
  predicate IsMatch(t: string, s: Span) {
    MatchesAt(t, s.start) && s.end == RunEnd(t, s.start + SchemeLen(t, s.start))
  }

  /** The matches `findall` reports when its scan is at position `p`. */
  function FindFrom(t: string, p: nat): seq<Span>
    requires p <= |t|
    decreases |t| - p
  {
    if p == |t| then []
    else if MatchesAt(t, p) then
      var e := RunEnd(t, p + SchemeLen(t, p));
      [Span(p, e)] + FindFrom(t, e)
    else FindFrom(t, p + 1)
  }

  lemma FindFromMatch(t: string, p: nat)
    requires p < |t| && MatchesAt(t, p)
    ensures FindFrom(t, p) == [Span(p, RunEnd(t, p + SchemeLen(t, p)))] + FindFrom(t, RunEnd(t, p + SchemeLen(t, p)))
  {
  }

  lemma FindFromSkip(t: string, p: nat)
    requires p < |t| && !MatchesAt(t, p)
    ensures FindFrom(t, p) == FindFrom(t, p + 1)
  {
  }

  /** Each span the scan reports is a match, and the spans come in
      increasing order without overlapping. */
  lemma {:induction false} FindFromSound(t: string, p: nat)
    requires p <= |t|
    ensures forall k :: 0 <= k < |FindFrom(t, p)| ==>
      p <= FindFrom(t, p)[k].start < FindFrom(t, p)[k].end <= |t| && IsMatch(t, FindFrom(t, p)[k])
    ensures forall i, j :: 0 <= i < j < |FindFrom(t, p)| ==> FindFrom(t, p)[i].end <= FindFrom(t, p)[j].start
    decreases |t| - p
  {
    if p < |t| {
      if MatchesAt(t, p) {
        FindFromSound(t, RunEnd(t, p + SchemeLen(t, p)));
      } else {
        FindFromSound(t, p + 1);
      }
    }
  }

  /** All matches of the pattern in `t`, left to right. */
  function Matches(t: string): (m: seq<Span>)
    ensures forall k :: 0 <= k < |m| ==> m[k].start < m[k].end <= |t|
  {
    FindFromSound(t, 0);
    FindFrom(t, 0)
  }

  /** The strings `re.findall(r"https?://\S+", t)` returns. */
  function Urls(t: string): (urls: seq<string>)
    ensures |urls| == |Matches(t)|
  {
    var m := Matches(t);
    seq(|m|, k requires 0 <= k < |m| => t[m[k].start..m[k].end])
  }

  /** What every string `findall` returns looks like: a scheme, at least one
      character after `://`, and no whitespace anywhere. */
  predicate IsUrl(u: string) {
    ((HttpsAt(u, 0) && |u| > 8) || (HttpAt(u, 0) && |u| > 7))
    && forall j :: 0 <= j < |u| ==> !IsSpace(u[j])
  }

  /** The text of one match is a URL. */
  lemma MatchIsUrl(t: string, s: Span)
    requires s.start < s.end <= |t| && IsMatch(t, s)
    ensures IsUrl(t[s.start..s.end])
  {
    var n := SchemeLen(t, s.start);
    var u := t[s.start..s.end];
    RunEndIsLongestRun(t, s.start + n);
    assert s.start + n < s.end;
    assert forall j :: 0 <= j < |u| ==> u[j] == t[s.start + j];
  }

  /** Every extracted URL starts with `http://` or `https://`, has at least
      one character after `://`, contains no whitespace, and runs up to the
      next whitespace character or the end of the text. */
  lemma {:induction false} UrlsAreUrls(t: string)
    ensures forall k :: 0 <= k < |Urls(t)| ==> IsUrl(Urls(t)[k])
    ensures forall k :: 0 <= k < |Matches(t)| ==>
      Matches(t)[k].end == |t| || IsSpace(t[Matches(t)[k].end])
  {
    var m := Matches(t);
    FindFromSound(t, 0);
    forall k | 0 <= k < |m| ensures IsUrl(Urls(t)[k]) && (m[k].end == |t| || IsSpace(t[m[k].end])) {
      MatchIsUrl(t, m[k]);
      RunEndIsLongestRun(t, m[k].start + SchemeLen(t, m[k].start));
    }
  }

  /** Position `q` lies inside one of the spans of `m`. */
  predicate Covered(m: seq<Span>, q: nat) {
    exists k :: 0 <= k < |m| && m[k].start <= q < m[k].end
  }

  lemma {:induction false} FindFromCovers(t: string, p: nat, q: nat)
    requires p <= q < |t| && MatchesAt(t, q)
    ensures Covered(FindFrom(t, p), q)
    decreases |t| - p
  {
    var r := FindFrom(t, p);
    if MatchesAt(t, p) {
      var e := RunEnd(t, p + SchemeLen(t, p));
      if q < e {
        assert r[0] == Span(p, e);
      } else {
        FindFromCovers(t, e, q);
        var r' := FindFrom(t, e);
        var k :| 0 <= k < |r'| && r'[k].start <= q < r'[k].end;
        assert r[k + 1] == r'[k];
      }
    } else {
      FindFromCovers(t, p + 1, q);
    }
  }

  /** `Matches` is exactly what a left-to-right, non-overlapping scan finds:
      each span is a match of the pattern, the spans are in increasing order
      and do not overlap, and every position where the pattern matches lies
      inside some span (no occurrence is skipped, repeated ones included). */
  lemma {:induction false} MatchesAreFindall(t: string)
    ensures forall k :: 0 <= k < |Matches(t)| ==> IsMatch(t, Matches(t)[k])
    ensures forall i, j :: 0 <= i < j < |Matches(t)| ==> Matches(t)[i].end <= Matches(t)[j].start
    ensures forall q :: 0 <= q < |t| && MatchesAt(t, q) ==> Covered(Matches(t), q)
  {
    FindFromSound(t, 0);
    forall q | 0 <= q < |t| && MatchesAt(t, q) ensures Covered(Matches(t), q) {
      FindFromCovers(t, 0, q);
    }
  }

  /** `m` with every position moved right by `d`. */
  function Shift(m: seq<Span>, d: nat): (r: seq<Span>)
    ensures |r| == |m|
  {
    if m == [] then [] else [Span(m[0].start + d, m[0].end + d)] + Shift(m[1..], d)
  }

  lemma {:induction false} ShiftAt(m: seq<Span>, d: nat, k: nat)
    requires k < |m|
    ensures Shift(m, d)[k] == Span(m[k].start + d, m[k].end + d)
  {
    if k > 0 {
      ShiftAt(m[1..], d, k - 1);
    }
  }

  /** `t` continues, from position `d` to its end, exactly as `b`. */
  predicate EndsWithAt(t: string, d: nat, b: string) {
    |t| == d + |b| && t[d..] == b
  }

  lemma {:induction false} RunEndShift(t: string, d: nat, b: string, i: nat)
    requires EndsWithAt(t, d, b) && i <= |b|
    ensures RunEnd(t, d + i) == d + RunEnd(b, i)
    decreases |b| - i
  {
    if i < |b| {
      assert t[d + i] == t[d..][i];
      if !IsSpace(b[i]) {
        RunEndShift(t, d, b, i + 1);
      }
    }
  }

  lemma MatchesAtShift(t: string, d: nat, b: string, q: nat)
    requires EndsWithAt(t, d, b) && q <= |b|
    ensures SchemeLen(t, d + q) == SchemeLen(b, q)
    ensures MatchesAt(t, d + q) == MatchesAt(b, q)
  {
    forall j | q <= j < |b| ensures t[d + j] == b[j] {
      assert t[d..][j] == b[j];
    }
  }

  lemma ShiftCons(s: Span, m: seq<Span>, d: nat)
    ensures Shift([s] + m, d) == [Span(s.start + d, s.end + d)] + Shift(m, d)
  {
    assert ([s] + m)[1..] == m;
  }

  /** `shifted` is `spans` moved by `d` when both start with the span
      `q..e` (moved, in `shifted`) and their rests agree. */
  lemma ShiftStep(shifted: seq<Span>, spans: seq<Span>, shiftedRest: seq<Span>, spansRest: seq<Span>,
                  q: nat, e: nat, d: nat)
    requires spans == [Span(q, e)] + spansRest
    requires shifted == [Span(d + q, d + e)] + shiftedRest
    requires shiftedRest == Shift(spansRest, d)
    ensures shifted == Shift(spans, d)
  {
    ShiftCons(Span(q, e), spansRest, d);
  }

  /** A match of `b` at `q` is a match of `t` at `d + q`, with the same end. */
  lemma ShiftedMatch(t: string, d: nat, b: string, q: nat)
    requires EndsWithAt(t, d, b) && q < |b| && MatchesAt(b, q)
    ensures FindFrom(t, d + q) ==
      [Span(d + q, d + RunEnd(b, q + SchemeLen(b, q)))] + FindFrom(t, d + RunEnd(b, q + SchemeLen(b, q)))
  {
    MatchesAtShift(t, d, b, q);
    RunEndShift(t, d, b, q + SchemeLen(b, q));
    FindFromMatch(t, d + q);
  }

  lemma ShiftedSkip(t: string, d: nat, b: string, q: nat)
    requires EndsWithAt(t, d, b) && q < |b| && !MatchesAt(b, q)
    ensures FindFrom(t, d + q) == FindFrom(t, d + q + 1)
  {
    MatchesAtShift(t, d, b, q);
    FindFromSkip(t, d + q);
  }

  /** The step of `FindFromShift` at a match that ends at `e`, given the
      claim at `e` and the matching step of both scans. */
  lemma ShiftMatchCase(t: string, d: nat, b: string, q: nat, e: nat)
    requires q <= e <= |b| && d + e <= |t|
    requires FindFrom(b, q) == [Span(q, e)] + FindFrom(b, e)
    requires FindFrom(t, d + q) == [Span(d + q, d + e)] + FindFrom(t, d + e)
    requires FindFrom(t, d + e) == Shift(FindFrom(b, e), d)
    ensures FindFrom(t, d + q) == Shift(FindFrom(b, q), d)
  {
    ShiftStep(FindFrom(t, d + q), FindFrom(b, q), FindFrom(t, d + e), FindFrom(b, e), q, e, d);
  }

  /** The step of `FindFromShift` where no match starts. */
  lemma ShiftSkipCase(t: string, d: nat, b: string, q: nat)
    requires EndsWithAt(t, d, b) && q < |b| && !MatchesAt(b, q)
    requires FindFrom(t, d + q + 1) == Shift(FindFrom(b, q + 1), d)
    ensures FindFrom(t, d + q) == Shift(FindFrom(b, q), d)
  {
    ShiftedSkip(t, d, b, q);
    FindFromSkip(b, q);
  }

  /** What the scan finds in the part of a text after a prefix does not
      depend on the prefix. */
  lemma {:induction false} FindFromShift(t: string, d: nat, b: string, q: nat)
    requires EndsWithAt(t, d, b) && q <= |b|
    ensures FindFrom(t, d + q) == Shift(FindFrom(b, q), d)
    decreases |b| - q
  {
    if q == |b| {
      assert FindFrom(b, q) == [] && FindFrom(t, d + q) == [];
      assert Shift([], d) == [];
    } else if MatchesAt(b, q) {
      var e := RunEnd(b, q + SchemeLen(b, q));
      FindFromShift(t, d, b, e);
      FindFromMatch(b, q);
      ShiftedMatch(t, d, b, q);
      ShiftMatchCase(t, d, b, q, e);
    } else {
      FindFromShift(t, d, b, q + 1);
      ShiftSkipCase(t, d, b, q);
    }
  }

  /** `t` starts with `a` and has a whitespace character right after it. */
  predicate PrefixThenSpace(t: string, a: string) {
    |a| < |t| && IsSpace(t[|a|]) && t[..|a|] == a
  }

  lemma {:induction false} RunEndPrefix(t: string, a: string, i: nat)
    requires PrefixThenSpace(t, a) && i <= |a|
    ensures RunEnd(t, i) == RunEnd(a, i)
    decreases |a| - i
  {
    if i < |a| {
      assert t[i] == t[..|a|][i];
      if !IsSpace(a[i]) {
        RunEndPrefix(t, a, i + 1);
      }
    }
  }

  lemma MatchesAtPrefix(t: string, a: string, p: nat)
    requires PrefixThenSpace(t, a) && p < |a|
    ensures SchemeLen(t, p) == SchemeLen(a, p)
    ensures MatchesAt(t, p) == MatchesAt(a, p)
  {
    SchemeCharsNotSpace();
    forall j | 0 <= j < |a| ensures t[j] == a[j] {
      assert t[..|a|][j] == a[j];
    }
  }

  /** A match of `a` at `p` is a match of `t` at `p`, with the same end. */
  lemma PrefixMatch(t: string, a: string, p: nat)
    requires PrefixThenSpace(t, a) && p < |a| && MatchesAt(a, p)
    ensures FindFrom(t, p) ==
      [Span(p, RunEnd(a, p + SchemeLen(a, p)))] + FindFrom(t, RunEnd(a, p + SchemeLen(a, p)))
  {
    MatchesAtPrefix(t, a, p);
    RunEndPrefix(t, a, p + SchemeLen(a, p));
    FindFromMatch(t, p);
  }

  lemma PrefixSkip(t: string, a: string, p: nat)
    requires PrefixThenSpace(t, a) && p < |a| && !MatchesAt(a, p)
    ensures FindFrom(t, p) == FindFrom(t, p + 1)
  {
    MatchesAtPrefix(t, a, p);
    FindFromSkip(t, p);
  }

  /** `whole` is `front` followed by `back` when `front` is `s` then
      `frontRest` and `whole` is `s` then `frontRest + back`. */
  lemma AppendStep(whole: seq<Span>, front: seq<Span>, frontRest: seq<Span>, back: seq<Span>, s: Span)
    requires whole == [s] + (frontRest + back) && front == [s] + frontRest
    ensures whole == front + back
  {
    assert [s] + (frontRest + back) == ([s] + frontRest) + back;
  }

  /** The step of `FindFromPrefix` at a match that ends at `e`, given the
      claim at `e` and the matching step of both scans. */
  lemma PrefixMatchCase(t: string, a: string, p: nat, e: nat)
    requires p <= e <= |a| < |t|
    requires FindFrom(a, p) == [Span(p, e)] + FindFrom(a, e)
    requires FindFrom(t, p) == [Span(p, e)] + FindFrom(t, e)
    requires FindFrom(t, e) == FindFrom(a, e) + FindFrom(t, |a|)
    ensures FindFrom(t, p) == FindFrom(a, p) + FindFrom(t, |a|)
  {
    AppendStep(FindFrom(t, p), FindFrom(a, p), FindFrom(a, e), FindFrom(t, |a|), Span(p, e));
  }

  /** The step of `FindFromPrefix` where no match starts. */
  lemma PrefixSkipCase(t: string, a: string, p: nat)
    requires PrefixThenSpace(t, a) && p < |a| && !MatchesAt(a, p)
    requires FindFrom(t, p + 1) == FindFrom(a, p + 1) + FindFrom(t, |a|)
    ensures FindFrom(t, p) == FindFrom(a, p) + FindFrom(t, |a|)
  {
    PrefixSkip(t, a, p);
    FindFromSkip(a, p);
  }

  /** A whitespace character ends every match, so the scan of a prefix
      that a whitespace character follows is unaffected by what follows. */
  lemma {:induction false} FindFromPrefix(t: string, a: string, p: nat)
    requires PrefixThenSpace(t, a) && p <= |a|
    ensures FindFrom(t, p) == FindFrom(a, p) + FindFrom(t, |a|)
    decreases |a| - p
  {
    if p == |a| {
      assert FindFrom(a, p) == [];
    } else if MatchesAt(a, p) {
      var e := RunEnd(a, p + SchemeLen(a, p));
      FindFromPrefix(t, a, e);
      FindFromMatch(a, p);
      PrefixMatch(t, a, p);
      PrefixMatchCase(t, a, p, e);
    } else {
      FindFromPrefix(t, a, p + 1);
      PrefixSkipCase(t, a, p);
    }
  }

  /** `a + [c] + b` is `a`, then `c`, then `b`, position by position. */
  lemma SplitAtSpace(a: string, c: char, b: string)
    requires IsSpace(c)
    ensures PrefixThenSpace(a + [c] + b, a)
    ensures EndsWithAt(a + [c] + b, |a| + 1, b)
  {
    var t := a + [c] + b;
    assert t[|a|] == c;
    assert t[..|a|] == a;
    assert t[|a| + 1..] == b;
  }

  /** The matches of a text that has a whitespace character at position
      `|a|`, with `a` before it and `b` after it. */
  lemma MatchesAroundSpace(t: string, a: string, b: string)
    requires PrefixThenSpace(t, a) && EndsWithAt(t, |a| + 1, b)
    ensures Matches(t) == Matches(a) + Shift(Matches(b), |a| + 1)
  {
    FindFromPrefix(t, a, 0);
    assert !MatchesAt(t, |a|) by {
      SchemeCharsNotSpace();
    }
    FindFromSkip(t, |a|);
    FindFromShift(t, |a| + 1, b, 0);
  }

  /** Splitting at a whitespace character splits the matches: those of `a`,
      then those of `b` moved past `a` and the whitespace. */
  lemma MatchesAcrossSpace(a: string, c: char, b: string)
    requires IsSpace(c)
    ensures Matches(a + [c] + b) == Matches(a) + Shift(Matches(b), |a| + 1)
  {
    SplitAtSpace(a, c, b);
    MatchesAroundSpace(a + [c] + b, a, b);
  }

  /** The URL text of the `k`-th match. */
  lemma UrlAt(t: string, k: nat)
    requires k < |Matches(t)|
    ensures Urls(t)[k] == t[Matches(t)[k].start..Matches(t)[k].end]
  {
  }

  /** Extraction is compositional across whitespace: the URLs of
      `a + [c] + b`, with `c` a whitespace character, are those of `a`
      followed by those of `b`, duplicates included. */
  lemma UrlsAcrossSpace(a: string, c: char, b: string)
    requires IsSpace(c)
    ensures Urls(a + [c] + b) == Urls(a) + Urls(b)
  {
    var t := a + [c] + b;
    MatchesAcrossSpace(a, c, b);
    var ma, mb := Matches(a), Matches(b);
    var ut, ua, ub := Urls(t), Urls(a), Urls(b);
    assert |ut| == |ua + ub|;
    forall k | 0 <= k < |ut| ensures ut[k] == (ua + ub)[k] {
      UrlAt(t, k);
      if k < |ma| {
        UrlAt(a, k);
        assert Matches(t)[k] == ma[k];
        assert t[ma[k].start..ma[k].end] == a[ma[k].start..ma[k].end];
      } else {
        var s := mb[k - |ma|];
        UrlAt(b, k - |ma|);
        ShiftAt(mb, |a| + 1, k - |ma|);
        assert Matches(t)[k] == Span(s.start + |a| + 1, s.end + |a| + 1);
        assert t[s.start + |a| + 1..s.end + |a| + 1] == b[s.start..s.end];
      }
    }
  }

  lemma {:induction false} RunEndNoSpace(t: string, i: nat)
    requires i <= |t|
    requires forall j :: i <= j < |t| ==> !IsSpace(t[j])
    ensures RunEnd(t, i) == |t|
    decreases |t| - i
  {
    if i < |t| {
      RunEndNoSpace(t, i + 1);
    }
  }

  /** A URL on its own is extracted whole, exactly once. */
  lemma SingleUrl(u: string)
    requires IsUrl(u)
    ensures Matches(u) == [Span(0, |u|)]
    ensures Urls(u) == [u]
  {
    var n := SchemeLen(u, 0);
    assert MatchesAt(u, 0);
    RunEndNoSpace(u, n);
    assert FindFrom(u, 0) == [Span(0, |u|)] + FindFrom(u, |u|);
    assert u[0..|u|] == u;
  }

  /** A URL that occurs twice is reported twice: `findall` does not
      de-duplicate. */
  lemma RepeatedUrlKept(u: string)
    requires IsUrl(u)
    ensures Urls(u + " " + u) == [u, u]
  {
    UrlsAcrossSpace(u, ' ', u);
    SingleUrl(u);
  }
}
