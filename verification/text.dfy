/** Character classes and string helpers shared by the server route and the
    client components: JavaScript's whitespace set (used by both `\s` and
    `String.prototype.trim`), `trim`, ASCII decimal digits, `parseInt` on a
    digit run and `Number.prototype.toString` on a non-negative integer. */
module Text {

  /** ECMAScript WhiteSpace and LineTerminator code points: the set that the
      regular-expression class `\s` matches and that `trim` removes. */
  const Whitespace: set<char> := {
    '\t', '\n', '\U{B}', '\U{C}', '\r', ' ', '\U{A0}', '\U{1680}',
    '\U{2000}', '\U{2001}', '\U{2002}', '\U{2003}', '\U{2004}', '\U{2005}',
    '\U{2006}', '\U{2007}', '\U{2008}', '\U{2009}', '\U{200A}',
    '\U{2028}', '\U{2029}', '\U{202F}', '\U{205F}', '\U{3000}', '\U{FEFF}'
  }

  predicate IsWhitespace(c: char) {
    c in Whitespace
  }

  predicate AllWhitespace(s: string) {
    forall i :: 0 <= i < |s| ==> IsWhitespace(s[i])
  }

  /** The regular-expression class `\d`: ASCII digits only. */
  predicate IsDigit(c: char) {
    '0' <= c <= '9'
  }

  predicate AllDigits(s: string) {
    forall i :: 0 <= i < |s| ==> IsDigit(s[i])
  }

  /** `trimStart`: drop the longest whitespace prefix. */
  function TrimStart(s: string): string {
    if |s| > 0 && IsWhitespace(s[0]) then TrimStart(s[1..]) else s
  }

  /** `trimEnd`: drop the longest whitespace suffix. */
  function TrimEnd(s: string): string {
    if |s| > 0 && IsWhitespace(s[|s| - 1]) then TrimEnd(s[..|s| - 1]) else s
  }

  /** What `trimStart` returns is a suffix of its input, what it drops is
      whitespace, and what it keeps does not start with whitespace. */
  lemma {:induction false} TrimStartSpec(s: string)
    ensures |TrimStart(s)| <= |s| && TrimStart(s) == s[|s| - |TrimStart(s)|..]
    ensures AllWhitespace(s[..|s| - |TrimStart(s)|])
    ensures TrimStart(s) == [] || !IsWhitespace(TrimStart(s)[0])
  {
    if |s| > 0 && IsWhitespace(s[0]) {
      var t := s[1..];
      var r := TrimStart(t);
      TrimStartSpec(t);
      assert TrimStart(s) == r;
      assert s[..|s| - |r|] == [s[0]] + t[..|t| - |r|];
      assert s[|s| - |r|..] == t[|t| - |r|..];
    }
  }

  /** What `trimEnd` returns is a prefix of its input, what it drops is
      whitespace, and what it keeps does not end with whitespace. */
  lemma {:induction false} TrimEndSpec(s: string)
    ensures |TrimEnd(s)| <= |s| && TrimEnd(s) == s[..|TrimEnd(s)|]
    ensures AllWhitespace(s[|TrimEnd(s)|..])
    ensures TrimEnd(s) == [] || !IsWhitespace(TrimEnd(s)[|TrimEnd(s)| - 1])
  {
    if |s| > 0 && IsWhitespace(s[|s| - 1]) {
      var r := TrimEnd(s[..|s| - 1]);
      TrimEndSpec(s[..|s| - 1]);
      assert s[|r|..] == s[..|s| - 1][|r|..] + [s[|s| - 1]];
    }
  }

  /** `String.prototype.trim`. */
  function Trim(s: string): string {
    TrimEnd(TrimStart(s))
  }

  /** A string that neither starts nor ends with whitespace. */
  predicate IsTrimmed(t: string) {
    t == [] || (!IsWhitespace(t[0]) && !IsWhitespace(t[|t| - 1]))
  }

  /** Trim removes a whitespace margin and nothing else: its result sits
      inside the input between two all-whitespace margins, and is trimmed. */
  lemma TrimCharacterization(s: string)
    ensures |Trim(s)| <= |s|
    ensures IsTrimmed(Trim(s))
    ensures exists lo :: 0 <= lo <= |s| - |Trim(s)|
                         && s[lo..lo + |Trim(s)|] == Trim(s)
                         && AllWhitespace(s[..lo])
                         && AllWhitespace(s[lo + |Trim(s)|..])
  {
    var u := TrimStart(s);
    var lo := |s| - |u|;
    var t := TrimEnd(u);
    TrimStartSpec(s);
    TrimEndSpec(u);
    assert s[lo..lo + |t|] == u[..|t|];
    assert s[lo + |t|..] == u[|t|..];
    if t != [] {
      assert t[0] == u[0];
    }
  }

  lemma {:induction false} TrimStartOfWhitespacePrefix(w: string, t: string)
    requires AllWhitespace(w)
    ensures TrimStart(w + t) == TrimStart(t)
    decreases |w|
  {
    if w != [] {
      assert (w + t)[1..] == w[1..] + t;
      TrimStartOfWhitespacePrefix(w[1..], t);
    } else {
      assert w + t == t;
    }
  }

  lemma {:induction false} TrimEndOfWhitespaceSuffix(t: string, w: string)
    requires AllWhitespace(w)
    ensures TrimEnd(t + w) == TrimEnd(t)
    decreases |w|
  {
    if w != [] {
      assert (t + w)[..|t + w| - 1] == t + w[..|w| - 1];
      TrimEndOfWhitespaceSuffix(t, w[..|w| - 1]);
    } else {
      assert t + w == t;
    }
  }

  lemma {:induction false} TrimStartOfWhitespace(w: string)
    requires AllWhitespace(w)
    ensures TrimStart(w) == []
    decreases |w|
  {
    if w != [] {
      TrimStartOfWhitespace(w[1..]);
    }
  }

  /** Trim is determined by the decomposition: whatever trimmed core `t` is
      wrapped in whitespace margins, trimming returns exactly `t`. */
  lemma TrimOfPadded(a: string, t: string, b: string)
    requires AllWhitespace(a) && AllWhitespace(b) && IsTrimmed(t)
    ensures Trim(a + t + b) == t
  {
    assert a + t + b == a + (t + b);
    TrimStartOfWhitespacePrefix(a, t + b);
    if t == [] {
      assert t + b == b;
      TrimStartOfWhitespace(b);
      assert TrimEnd([]) == [];
    } else {
      assert (t + b)[0] == t[0];
      assert TrimStart(t + b) == t + b;
      TrimEndOfWhitespaceSuffix(t, b);
      assert TrimEnd(t) == t;
    }
  }

  /** Trimming twice is trimming once. */
  lemma TrimIdempotent(s: string)
    ensures Trim(Trim(s)) == Trim(s)
  {
    TrimCharacterization(s);
    TrimOfPadded([], Trim(s), []);
    assert [] + Trim(s) + [] == Trim(s);
  }

  /** A whitespace prefix never changes what trim returns. */
  lemma TrimIgnoresWhitespacePrefix(w: string, t: string)
    requires AllWhitespace(w)
    ensures Trim(w + t) == Trim(t)
  {
    TrimStartOfWhitespacePrefix(w, t);
  }

  function DigitValue(c: char): (d: nat)
    requires IsDigit(c)
    ensures d < 10
  {
    (c as int) - ('0' as int)
  }

  function DigitChar(d: nat): (c: char)
    requires d < 10
    ensures IsDigit(c) && DigitValue(c) == d
  {
    ('0' as int + d) as char
  }

  /** `parseInt` of a run of ASCII digits, read in base 10. */
  function DecimalValue(ds: string): nat
    requires AllDigits(ds)
  {
    if ds == [] then 0
    else 10 * DecimalValue(ds[..|ds| - 1]) + DigitValue(ds[|ds| - 1])
  }

  /** Template-literal interpolation of a non-negative integer below
      10^21: its shortest decimal spelling (from 10^21 on JavaScript writes
      exponent notation, which this does not model). */
  function NatToDecimal(n: nat): (r: string)
    ensures |r| > 0 && AllDigits(r)
    ensures r[0] == '0' ==> n == 0
    decreases n
  {
    if n < 10 then [DigitChar(n)] else NatToDecimal(n / 10) + [DigitChar(n % 10)]
  }

  /** Reading back what was written yields the same number. */
  lemma {:induction false} DecimalRoundTrip(n: nat)
    ensures DecimalValue(NatToDecimal(n)) == n
    decreases n
  {
    if n >= 10 {
      var r := NatToDecimal(n);
      assert r[..|r| - 1] == NatToDecimal(n / 10);
      DecimalRoundTrip(n / 10);
    }
  }

  /** Leading zeros are ignored by `parseInt`. */
  lemma {:induction false} DecimalIgnoresLeadingZero(ds: string)
    requires AllDigits(ds)
    ensures AllDigits("0" + ds) && DecimalValue("0" + ds) == DecimalValue(ds)
    decreases |ds|
  {
    if ds != [] {
      var zs := "0" + ds;
      assert zs[..|zs| - 1] == "0" + ds[..|ds| - 1];
      DecimalIgnoresLeadingZero(ds[..|ds| - 1]);
    }
  }
}
