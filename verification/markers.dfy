/** The citation-marker grammar shared by the chat route and the message view:
    the global regular expression `/\[Doc (\d+):\s*([^\]]+)\]/g` driven by a
    `regex.exec` loop, written out as a scanner over the text.

    A match at position `p` is the literal `[Doc `, a non-empty digit run, a
    colon, then `\s*([^\]]+)` and a closing `]`. Because whitespace is not `]`,
    `\s*([^\]]+)` together cover exactly the maximal run R of non-`]`
    characters after the colon; the match exists iff R is non-empty and is
    followed by `]`. `exec` tries positions left to right from `lastIndex`,
    and after a match resumes just past its `]`. */
module Markers {
  import opened Text
  import opened Types

  const Open: string := "[Doc "

  /** The literal `[Doc ` occurs at `p`. */
  predicate OpenAt(s: string, p: nat) {
    p + 5 <= |s| && s[p] == '[' && s[p + 1] == 'D' && s[p + 2] == 'o' && s[p + 3] == 'c' && s[p + 4] == ' '
  }

  /** Where one match sits: it starts at `start`, the digits run up to the
      colon at `colon`, and the match ends just after its `]` (exclusive). */
  datatype Span = Span(start: nat, colon: nat, end: nat)

  /** The regular expression matches `s[p..e]`, with the colon at `c` and
      the `\s*` part covering `s[c+1..k]`. */
  predicate MarkerShape(s: string, p: nat, c: nat, k: nat, e: nat) {
    && p + 5 < c && c + 1 <= k && k + 1 < e && e <= |s|
    && OpenAt(s, p)
    && AllDigits(s[p + 5..c])
    && s[c] == ':'
    && AllWhitespace(s[c + 1..k])
    && ']' !in s[k..e - 1]
    && s[e - 1] == ']'
  }

  /** `m` is a match of the regular expression in `s` (declaratively). */
  ghost predicate IsMatch(s: string, m: Span) {
    exists k :: MarkerShape(s, m.start, m.colon, k, m.end)
  }

  /** First index at or after `i` that is not a digit (or the end). */
  function DigitRunEnd(s: string, i: nat): (j: nat)
    requires i <= |s|
    ensures i <= j <= |s|
    decreases |s| - i
  {
    if i < |s| && IsDigit(s[i]) then DigitRunEnd(s, i + 1) else i
  }

  /** The run found is all digits and maximal. */
  lemma {:induction false} DigitRunEndSpec(s: string, i: nat)
    requires i <= |s|
    ensures forall x :: i <= x < DigitRunEnd(s, i) ==> IsDigit(s[x])
    ensures DigitRunEnd(s, i) == |s| || !IsDigit(s[DigitRunEnd(s, i)])
    decreases |s| - i
  {
    if i < |s| && IsDigit(s[i]) {
      DigitRunEndSpec(s, i + 1);
    }
  }

  /** First index at or after `i` holding `]` (or the end). */
  function CloseIndex(s: string, i: nat): (j: nat)
    requires i <= |s|
    ensures i <= j <= |s|
    decreases |s| - i
  {
    if i < |s| && s[i] != ']' then CloseIndex(s, i + 1) else i
  }

  /** What lies before the index found holds no `]`, and the index is a `]`
      unless it is the end. */
  lemma {:induction false} CloseIndexSpec(s: string, i: nat)
    requires i <= |s|
    ensures forall x :: i <= x < CloseIndex(s, i) ==> s[x] != ']'
    ensures CloseIndex(s, i) == |s| || s[CloseIndex(s, i)] == ']'
    decreases |s| - i
  {
    if i < |s| && s[i] != ']' {
      CloseIndexSpec(s, i + 1);
    }
  }

  /** A span of a match: digits between the prefix and the colon, and a
      non-empty stretch between the colon and the closing `]`. */
  predicate ValidSpan(s: string, m: Span) {
    m.start + 5 < m.colon && m.colon + 1 < m.end - 1 && m.end <= |s|
    && AllDigits(s[m.start + 5..m.colon])
  }

  /** `match[1]`: the digit run, exactly as written. */
  function DigitsOf(s: string, m: Span): string
    requires ValidSpan(s, m)
  {
    s[m.start + 5..m.colon]
  }

  /** R: everything between the colon and the closing `]`. */
  function TailOf(s: string, m: Span): string
    requires ValidSpan(s, m)
  {
    s[m.colon + 1..m.end - 1]
  }

  /** `match[2]`, the raw name capture. The greedy `\s*` takes the leading
      whitespace of R but must leave at least one character for `[^\]]+`,
      so when R is all whitespace it gives back R's last character. */
  function NameCapture(s: string, m: Span): (g: string)
    requires ValidSpan(s, m)
    ensures 0 < |g| <= |TailOf(s, m)|
    ensures g == TailOf(s, m)[|TailOf(s, m)| - |g|..]
    ensures AllWhitespace(TailOf(s, m)[..|TailOf(s, m)| - |g|])
    ensures |g| == 1 || !IsWhitespace(g[0])
  {
    var r := TailOf(s, m);
    var t := TrimStart(r);
    TrimStartSpec(r);
    if |t| > 0 then t else r[|r| - 1..]
  }

  /** The regular expression tried at exactly position `p`. */
  function MatchAt(s: string, p: nat): (r: Option<Span>)
    requires p <= |s|
    ensures r.Some? ==> r.value.start == p && ValidSpan(s, r.value)
  {
    if OpenAt(s, p) then
      var c := DigitRunEnd(s, p + 5);
      DigitRunEndSpec(s, p + 5);
      if c > p + 5 && c < |s| && s[c] == ':' then
        var b := CloseIndex(s, c + 1);
        if b > c + 1 && b < |s| then Some(Span(p, c, b + 1)) else None
      else None
    else None
  }

  /** What `MatchAt` finds is a match of the regular expression, with an
      empty `\\s*` part (the whitespace goes to the name capture). */
  lemma MatchAtSound(s: string, p: nat)
    requires p <= |s| && MatchAt(s, p).Some?
    ensures MarkerShape(s, p, MatchAt(s, p).value.colon, MatchAt(s, p).value.colon + 1, MatchAt(s, p).value.end)
  {
    CloseIndexSpec(s, MatchAt(s, p).value.colon + 1);
  }

  /** `MatchAt` finds a match at `p` exactly when the regular expression has
      one there, and then it is that match: the colon and the end position are
      determined by the start. */
  lemma MatchAtComplete(s: string, p: nat, c: nat, k: nat, e: nat)
    requires p <= |s| && MarkerShape(s, p, c, k, e)
    ensures MatchAt(s, p) == Some(Span(p, c, e))
  {
    var j := DigitRunEnd(s, p + 5);
    DigitRunEndSpec(s, p + 5);
    forall x | p + 5 <= x < c
      ensures IsDigit(s[x])
    {
      assert s[x] == s[p + 5..c][x - (p + 5)];
    }
    assert !IsDigit(':');
    assert j == c;
    var b := CloseIndex(s, c + 1);
    CloseIndexSpec(s, c + 1);
    forall x | c + 1 <= x < e - 1
      ensures s[x] != ']'
    {
      if x < k {
        assert s[x] == s[c + 1..k][x - (c + 1)];
        assert !IsWhitespace(']');
      } else {
        assert s[x] == s[k..e - 1][x - k];
      }
    }
    assert b == e - 1;
  }

  /** The regular expression matches nowhere in `s` at a position in `[lo, hi)`. */
  ghost predicate NoMatchIn(s: string, lo: nat, hi: nat) {
    forall p, c, k, e :: lo <= p < hi ==> !MarkerShape(s, p, c, k, e)
  }

  /** `MatchAt` fails at every position of `[lo, hi)`. */
  predicate MatchAtFailsIn(s: string, lo: nat, hi: nat)
    requires hi <= |s| + 1
  {
    forall p :: lo <= p < hi ==> MatchAt(s, p).None?
  }

  /** ... and then the regular expression matches nowhere there. */
  lemma NoMatchFromMatchAt(s: string, lo: nat, hi: nat)
    requires hi <= |s| + 1 && MatchAtFailsIn(s, lo, hi)
    ensures NoMatchIn(s, lo, hi)
  {
    forall p, c, k, e | lo <= p < hi
      ensures !MarkerShape(s, p, c, k, e)
    {
      if MarkerShape(s, p, c, k, e) {
        MatchAtComplete(s, p, c, k, e);
      }
    }
  }

  /** One `regex.exec` call with `lastIndex == i`: the leftmost match
      starting at or after `i`, or none. */
  function NextMatch(s: string, i: nat): (r: Option<Span>)
    requires i <= |s|
    ensures r.Some? ==> i <= r.value.start && ValidSpan(s, r.value)
    decreases |s| - i
  {
    match MatchAt(s, i)
    case Some(m) => Some(m)
    case None => if i < |s| then NextMatch(s, i + 1) else None
  }

  /** `exec` returns the attempt at the leftmost position where one succeeds,
      and null when every attempt up to the end of the text fails. */
  lemma {:induction false} NextMatchLeftmost(s: string, i: nat)
    requires i <= |s|
    ensures NextMatch(s, i).Some? ==>
              && MatchAt(s, NextMatch(s, i).value.start) == NextMatch(s, i)
              && MatchAtFailsIn(s, i, NextMatch(s, i).value.start)
    ensures NextMatch(s, i).None? ==> MatchAtFailsIn(s, i, |s| + 1)
    decreases |s| - i
  {
    if MatchAt(s, i).None? && i < |s| {
      NextMatchLeftmost(s, i + 1);
    }
  }

  /** Every match the `exec` loop finds from `i`, in order. */
  function Scan(s: string, i: nat): (ms: seq<Span>)
    requires i <= |s|
    decreases |s| - i
  {
    match NextMatch(s, i)
    case None => []
    case Some(m) => [m] + Scan(s, m.end)
  }

  /** The scan's matches are attempts that succeeded at or after `i`. */
  lemma {:induction false} ScanSucceeds(s: string, i: nat)
    requires i <= |s|
    ensures forall j :: 0 <= j < |Scan(s, i)| ==>
              i <= Scan(s, i)[j].start <= |s| && MatchAt(s, Scan(s, i)[j].start) == Some(Scan(s, i)[j])
    decreases |s| - i
  {
    NextMatchLeftmost(s, i);
    match NextMatch(s, i)
    case None =>
    case Some(m) =>
      var rest := Scan(s, m.end);
      ScanSucceeds(s, m.end);
      assert Scan(s, i) == [m] + rest;
  }

  /** The scan's matches come in increasing order, without overlap. */
  lemma {:induction false} ScanOrdered(s: string, i: nat)
    requires i <= |s|
    ensures forall j :: 0 <= j < |Scan(s, i)| - 1 ==> Scan(s, i)[j].end <= Scan(s, i)[j + 1].start
    decreases |s| - i
  {
    match NextMatch(s, i)
    case None =>
    case Some(m) =>
      var rest := Scan(s, m.end);
      ScanOrdered(s, m.end);
      ScanSucceeds(s, m.end);
      var ms := [m] + rest;
      assert Scan(s, i) == ms;
      forall j | 0 <= j < |ms| - 1
        ensures ms[j].end <= ms[j + 1].start
      {
        if j > 0 {
          assert ms[j] == rest[j - 1] && ms[j + 1] == rest[j];
        } else {
          assert ms[1] == rest[0];
        }
      }
  }

  /** One step of the `exec` loop. */
  lemma ScanStep(s: string, i: nat)
    requires i <= |s|
    ensures NextMatch(s, i).None? ==> Scan(s, i) == []
    ensures NextMatch(s, i).Some? ==> Scan(s, i) == [NextMatch(s, i).value] + Scan(s, NextMatch(s, i).value.end)
  {
  }

  /** The reference meaning of a global-regex scan from `from`, given the
      meaning of one attempt (`MatchAt`, which agrees with the regular
      expression by `MatchAtComplete` and its own postcondition): the first
      element is the match at the leftmost position at or after `from` where
      an attempt succeeds, the rest is the same scan resumed just past that
      match, and when no attempt succeeds the list ends. */
  ghost predicate LeftmostScan(s: string, from: nat, ms: seq<Span>)
    requires from <= |s|
    decreases |ms|
  {
    if ms == [] then MatchAtFailsIn(s, from, |s| + 1)
    else
      && from <= ms[0].start <= |s|
      && MatchAt(s, ms[0].start) == Some(ms[0])
      && MatchAtFailsIn(s, from, ms[0].start)
      && LeftmostScan(s, ms[0].end, ms[1..])
  }

  /** The scanner meets the reference meaning. */
  lemma {:induction false} ScanIsLeftmost(s: string, from: nat)
    requires from <= |s|
    ensures LeftmostScan(s, from, Scan(s, from))
    decreases |s| - from
  {
    ScanStep(s, from);
    NextMatchLeftmost(s, from);
    match NextMatch(s, from)
    case None =>
    case Some(m) =>
      var ms := Scan(s, from);
      assert ms[1..] == Scan(s, m.end);
      ScanIsLeftmost(s, m.end);
  }

  /** The head of a reference scan is what one `exec` call returns. */
  lemma LeftmostHead(s: string, from: nat, ms: seq<Span>)
    requires from <= |s| && LeftmostScan(s, from, ms)
    ensures ms == [] ==> NextMatch(s, from).None?
    ensures ms != [] ==> NextMatch(s, from) == Some(ms[0])
  {
    NextMatchLeftmost(s, from);
  }

  /** Any list meeting the reference meaning is the scanner's list: the
      reference pins the result down completely. */
  lemma {:induction false} LeftmostScanUnique(s: string, from: nat, ms: seq<Span>)
    requires from <= |s| && LeftmostScan(s, from, ms)
    ensures ms == Scan(s, from)
    decreases |ms|
  {
    ScanStep(s, from);
    LeftmostHead(s, from, ms);
    if ms != [] {
      LeftmostScanUnique(s, ms[0].end, ms[1..]);
      assert ms == [ms[0]] + ms[1..];
    }
  }

  /** The text `[Doc ` + digits + `:` + R + `]`, with R non-empty and free of
      `]`, is one match spanning the whole text, and nothing follows it. */
  lemma LoneMarkerScan(d: string, r: string)
    requires d != [] && AllDigits(d)
    requires r != [] && ']' !in r
    ensures var s := Open + d + ":" + r + "]";
            && NextMatch(s, 0) == Some(Span(0, 5 + |d|, |s|))
            && NextMatch(s, |s|).None?
            && DigitsOf(s, Span(0, 5 + |d|, |s|)) == d
            && TailOf(s, Span(0, 5 + |d|, |s|)) == r
  {
    var s := Open + d + ":" + r + "]";
    var c := 5 + |d|;
    var e := |s|;
    assert s[5..c] == d;
    assert s[c] == ':';
    assert s[c + 1..e - 1] == r;
    assert MarkerShape(s, 0, c, c + 1, e);
    MatchAtComplete(s, 0, c, c + 1, e);
  }
}
