/** `extraerDocumentosReferenciados` (app/api/chat/route.ts): the route's
    reading of each citation marker as an `{id, nombre}` record. */
module Citations {
  import opened Text
  import opened Types
  import opened Markers

  /** A citation marker as the route reports it. */
  datatype Marker = Marker(id: nat, nombre: string)

  /** `{id: parseInt(match[1]), nombre: match[2].trim()}`. */
  function MarkerOf(s: string, m: Span): Marker
    requires ValidSpan(s, m)
  {
    Marker(DecimalValue(DigitsOf(s, m)), Trim(NameCapture(s, m)))
  }

  /** The capture and the whole stretch R between colon and `]` trim to the
      same name, so the backtracking of `\s*` never shows in a record. */
  lemma NameIsTrimmedTail(s: string, m: Span)
    requires ValidSpan(s, m)
    ensures Trim(NameCapture(s, m)) == Trim(TailOf(s, m))
  {
    var r := TailOf(s, m);
    var g := NameCapture(s, m);
    assert r == r[..|r| - |g|] + g;
    TrimIgnoresWhitespacePrefix(r[..|r| - |g|], g);
  }

  /** The records the `exec` loop still pushes once `lastIndex == i`. */
  function Records(s: string, i: nat): seq<Marker>
    requires i <= |s|
    decreases |s| - i
  {
    match NextMatch(s, i)
    case None => []
    case Some(m) => [MarkerOf(s, m)] + Records(s, m.end)
  }

  /** One record per match of the scan, in the scan's order. */
  lemma {:induction false} RecordsOfScan(s: string, i: nat)
    requires i <= |s|
    ensures |Records(s, i)| == |Scan(s, i)|
    ensures forall j :: 0 <= j < |Scan(s, i)| ==>
              ValidSpan(s, Scan(s, i)[j]) && Records(s, i)[j] == MarkerOf(s, Scan(s, i)[j])
    decreases |s| - i
  {
    ScanStep(s, i);
    match NextMatch(s, i)
    case None =>
    case Some(m) =>
      RecordsOfScan(s, m.end);
      var rest := Scan(s, m.end);
      var ks := Records(s, m.end);
      var ms := [m] + rest;
      var rs := [MarkerOf(s, m)] + ks;
      assert Records(s, i) == rs;
      assert Scan(s, i) == ms;
      forall j | 0 <= j < |ms|
        ensures ValidSpan(s, ms[j]) && rs[j] == MarkerOf(s, ms[j])
      {
        if j > 0 {
          assert ms[j] == rest[j - 1] && rs[j] == ks[j - 1];
        }
      }
  }

  /** `extraerDocumentosReferenciados`, read as a function: one record per
      match of the scan, in order. Parsing never fails. */
  function ParseMarkers(texto: string): seq<Marker>
  {
    Records(texto, 0)
  }

  /** What one record means: a successful attempt is a match of the regular
      expression; its record's id is the decimal value of the digits as
      written, and its name is the trimmed text between the colon and the
      `]`, a text that holds no `]`. */
  lemma RecordMeaning(s: string, m: Span)
    requires m.start <= |s| && MatchAt(s, m.start) == Some(m)
    ensures ValidSpan(s, m) && IsMatch(s, m)
    ensures MarkerOf(s, m).id == DecimalValue(DigitsOf(s, m))
    ensures MarkerOf(s, m).nombre == Trim(TailOf(s, m))
    ensures ']' !in TailOf(s, m)
  {
    NameIsTrimmedTail(s, m);
    MatchAtSound(s, m.start);
    assert TailOf(s, m) == s[m.colon + 1..m.end - 1];
  }

  /** What the records mean, against the reference meaning of a global scan
      (`LeftmostScan`, which `ScanIsLeftmost` shows is met): one record per
      match, in the same order, so repeated markers are kept; the matches do
      not overlap; each is a match of the regular expression and its record
      is read as `RecordMeaning` states. */
  lemma ParseMarkersMeaning(texto: string, ms: seq<Span>)
    requires LeftmostScan(texto, 0, ms)
    ensures |ParseMarkers(texto)| == |ms|
    ensures forall j :: 0 <= j < |ms| - 1 ==> ms[j].end <= ms[j + 1].start
    ensures forall j :: 0 <= j < |ms| ==>
              && ValidSpan(texto, ms[j]) && IsMatch(texto, ms[j])
              && ParseMarkers(texto)[j].id == DecimalValue(DigitsOf(texto, ms[j]))
              && ParseMarkers(texto)[j].nombre == Trim(TailOf(texto, ms[j]))
  {
    LeftmostScanUnique(texto, 0, ms);
    ScanSucceeds(texto, 0);
    ScanOrdered(texto, 0);
    RecordsOfScan(texto, 0);
    forall j | 0 <= j < |ms|
      ensures ValidSpan(texto, ms[j]) && IsMatch(texto, ms[j])
      ensures ParseMarkers(texto)[j] == MarkerOf(texto, ms[j])
      ensures MarkerOf(texto, ms[j]).id == DecimalValue(DigitsOf(texto, ms[j]))
      ensures MarkerOf(texto, ms[j]).nombre == Trim(TailOf(texto, ms[j]))
    {
      RecordMeaning(texto, ms[j]);
    }
  }

  /** The text has no citation marker at all exactly when the regular
      expression matches at no position of it. */
  lemma NoMarkersIff(texto: string)
    ensures ParseMarkers(texto) == [] <==> NoMatchIn(texto, 0, |texto| + 1)
  {
    NextMatchLeftmost(texto, 0);
    if NextMatch(texto, 0).None? {
      NoMatchFromMatchAt(texto, 0, |texto| + 1);
    } else {
      var m := NextMatch(texto, 0).value;
      MatchAtSound(texto, m.start);
      assert MarkerShape(texto, m.start, m.colon, m.colon + 1, m.end);
    }
  }

  /** Brackets that look like a marker but are malformed: the id is not a
      digit run, the digits are not followed by a colon, the colon is followed
      directly by `]`, or no `]` follows the colon. */
  predicate Malformed(s: string, p: nat)
    requires OpenAt(s, p)
  {
    var d := DigitRunEnd(s, p + 5);
    || d == p + 5
    || d == |s| || s[d] != ':'
    || CloseIndex(s, d + 1) == d + 1
    || CloseIndex(s, d + 1) == |s|
  }

  /** Malformed brackets never produce a record, and never an error: a text
      whose every `[Doc ` is malformed parses to the empty list. */
  lemma MalformedBracketsYieldNothing(texto: string)
    requires forall p :: OpenAt(texto, p) ==> Malformed(texto, p)
    ensures ParseMarkers(texto) == []
  {
    assert MatchAtFailsIn(texto, 0, |texto| + 1);
    NextMatchLeftmost(texto, 0);
  }

  /** `[Doc X: foo]`: the id is not a digit run. */
  lemma NonDigitIdExample()
    ensures ParseMarkers("[Doc X: foo]") == []
  {
    var s := "[Doc X: foo]";
    forall p | OpenAt(s, p)
      ensures Malformed(s, p)
    {
      assert p == 0;
      assert !IsDigit(s[5]);
    }
    MalformedBracketsYieldNothing(s);
  }

  /** `[Doc 5:]`: nothing between the colon and the `]`. */
  lemma EmptyNameExample()
    ensures ParseMarkers("[Doc 5:]") == []
  {
    var s := "[Doc 5:]";
    forall p | OpenAt(s, p)
      ensures Malformed(s, p)
    {
      assert p == 0;
      assert DigitRunEnd(s, 6) == 6;
      assert DigitRunEnd(s, 5) == 6;
      assert CloseIndex(s, 7) == 7;
    }
    MalformedBracketsYieldNothing(s);
  }

  /** A text without any `]` holds no marker: an unterminated bracket is
      never a marker. */
  lemma UnterminatedYieldsNothing(texto: string)
    requires ']' !in texto
    ensures ParseMarkers(texto) == []
  {
    assert MatchAtFailsIn(texto, 0, |texto| + 1) by {
      forall p | 0 <= p <= |texto|
        ensures MatchAt(texto, p).None?
      {
        if MatchAt(texto, p).Some? {
          MatchAtSound(texto, p);
        }
      }
    }
    NextMatchLeftmost(texto, 0);
  }

  /** The scan of a lone marker: `[Doc ` + digits + `:` + R + `]`, where R is
      non-empty and holds no `]`, yields exactly one record, the digits' value
      and R trimmed. */
  lemma LoneMarker(d: string, r: string)
    requires d != [] && AllDigits(d)
    requires r != [] && ']' !in r
    ensures ParseMarkers(Open + d + ":" + r + "]") == [Marker(DecimalValue(d), Trim(r))]
  {
    var s := Open + d + ":" + r + "]";
    LoneMarkerScan(d, r);
    var m := Span(0, 5 + |d|, |s|);
    assert Records(s, |s|) == [];
    NameIsTrimmedTail(s, m);
  }

  /** A `[Doc ` inside a name is swallowed by it (as in
      `[Doc 1: a [Doc 2: b]`): the scan resumes only after the `]`, so the
      text yields a single record whose name holds the inner opening. */
  lemma InnerOpenSwallowed(d: string, a: string, d2: string, b: string)
    requires d != [] && AllDigits(d)
    requires ']' !in a && ']' !in b && ']' !in d2
    ensures ParseMarkers(Open + d + ":" + a + Open + d2 + ":" + b + "]")
            == [Marker(DecimalValue(d), Trim(a + Open + d2 + ":" + b))]
  {
    var r := a + Open + d2 + ":" + b;
    assert r[|a|] == '[';
    assert ']' !in r;
    assert Open + d + ":" + a + Open + d2 + ":" + b + "]" == Open + d + ":" + r + "]";
    LoneMarker(d, r);
  }

  /** A marker whose name is only whitespace (`[Doc 5:   ]`) is still a
      marker; its name trims to the empty string. */
  lemma BlankName(d: string, w: string)
    requires d != [] && AllDigits(d)
    requires w != [] && AllWhitespace(w)
    ensures ParseMarkers(Open + d + ":" + w + "]") == [Marker(DecimalValue(d), "")]
  {
    assert ']' !in w by {
      assert !IsWhitespace(']');
    }
    LoneMarker(d, w);
    TrimStartOfWhitespace(w);
  }

  /** One turn of the loop: a match at or after `i` contributes its record
      ahead of the records after it; no match means no records. */
  lemma RecordsStep(s: string, i: nat)
    requires i <= |s|
    ensures NextMatch(s, i).None? ==> Records(s, i) == []
    ensures NextMatch(s, i).Some? ==>
              && ValidSpan(s, NextMatch(s, i).value)
              && i < NextMatch(s, i).value.end <= |s|
              && Records(s, i) == [MarkerOf(s, NextMatch(s, i).value)] + Records(s, NextMatch(s, i).value.end)
  {
  }

  /** The loop of `extraerDocumentosReferenciados`: `regex.exec` from
      `lastIndex` until it returns null, pushing one record per match. */
  method ExtraerDocumentosReferenciados(texto: string) returns (docs: seq<Marker>)
    ensures docs == ParseMarkers(texto)
  {
    docs := [];
    var lastIndex: nat := 0;
    var match_ := NextMatch(texto, lastIndex);
    RecordsStep(texto, lastIndex);
    while match_.Some?
      invariant lastIndex <= |texto| && match_ == NextMatch(texto, lastIndex)
      invariant docs + Records(texto, lastIndex) == ParseMarkers(texto)
      decreases |texto| - lastIndex
    {
      var m := match_.value;
      RecordsStep(texto, lastIndex);
      docs, lastIndex := docs + [MarkerOf(texto, m)], m.end;
      match_ := NextMatch(texto, lastIndex);
    }
    RecordsStep(texto, lastIndex);
  }
}
