/** How a chat message shows its text (components/ChatMessage.tsx):
    `procesarContenido` cuts the text into plain pieces and one link per
    citation marker, using the same regular expression as the route, and the
    list of referenced documents gives each one a link target. */
module ChatMessageView {
  import opened Types
  import opened Text
  import opened Markers
  import opened Citations

  /** A rendered piece: a run of plain text, or a link for one marker,
      holding `match[1]` (the digits as written), `match[2]` (the raw name
      capture, not trimmed) and the whole matched marker. */
  datatype Segment =
    | TextSegment(text: string)
    | LinkSegment(docId: string, nombre: string, matched: string)

  /** `#doc-${docId}`: the `href` of an inline link, built from the digits
      as written, and the fallback target of a listed document. */
  function Href(docId: string): string {
    "#doc-" + docId
  }

  /** The link the loop pushes for match `m`. */
  function LinkOf(s: string, m: Span): Segment
    requires ValidSpan(s, m)
  {
    LinkSegment(DigitsOf(s, m), NameCapture(s, m), s[m.start..m.end])
  }

  /** The segments the loop still pushes once `lastIndex == i`: the text
      before each match (when there is any), the match's link, and after the
      last match the rest of the text (when there is any). */
  function Parts(s: string, i: nat): seq<Segment>
    requires i <= |s|
    decreases |s| - i
  {
    match NextMatch(s, i)
    case None => if i < |s| then [TextSegment(s[i..])] else []
    case Some(m) =>
      var link := LinkOf(s, m);
      if m.start > i then [TextSegment(s[i..m.start])] + ([link] + Parts(s, m.end))
      else [link] + Parts(s, m.end)
  }

  /** What `procesarContenido` returns: the segment list, or the text itself
      when the list is empty. */
  datatype Rendered = Segments(parts: seq<Segment>) | PlainText(text: string)

  function ProcesarContenido(texto: string): Rendered {
    var ps := Parts(texto, 0);
    if |ps| > 0 then Segments(ps) else PlainText(texto)
  }

  /** The characters a segment stands for in the original text. */
  function Source(p: Segment): string {
    match p
    case TextSegment(t) => t
    case LinkSegment(_, _, whole) => whole
  }

  /** The segments' source texts, concatenated in order. */
  function Flatten(ps: seq<Segment>): string {
    if ps == [] then "" else Source(ps[0]) + Flatten(ps[1..])
  }

  lemma FlattenCons(p: Segment, ps: seq<Segment>)
    ensures Flatten([p] + ps) == Source(p) + Flatten(ps)
  {
    assert ([p] + ps)[1..] == ps;
  }

  /** The text before a match, its link and the rest put back together. */
  lemma ReconstructStep(s: string, i: nat, start: nat, end: nat, link: Segment, rest: seq<Segment>)
    requires i <= start <= end <= |s|
    requires Source(link) == s[start..end] && Flatten(rest) == s[end..]
    ensures start > i ==> Flatten([TextSegment(s[i..start])] + ([link] + rest)) == s[i..]
    ensures start == i ==> Flatten([link] + rest) == s[i..]
  {
    FlattenCons(link, rest);
    if start > i {
      FlattenCons(TextSegment(s[i..start]), [link] + rest);
      assert s[i..] == s[i..start] + (s[start..end] + s[end..]);
    } else {
      assert s[i..] == s[start..end] + s[end..];
    }
  }

  /** Concatenating the segments in order gives back the text from `i` on:
      nothing is lost, duplicated or reordered. */
  lemma {:induction false} PartsReconstruct(s: string, i: nat)
    requires i <= |s|
    ensures Flatten(Parts(s, i)) == s[i..]
    decreases |s| - i
  {
    match NextMatch(s, i)
    case None =>
      if i < |s| {
        FlattenCons(TextSegment(s[i..]), []);
      }
    case Some(m) =>
      PartsReconstruct(s, m.end);
      var link := LinkOf(s, m);
      ReconstructStep(s, i, m.start, m.end, link, Parts(s, m.end));
  }

  /** `procesarContenido` never loses text. */
  lemma Reconstruct(texto: string)
    ensures ProcesarContenido(texto).Segments? ==> Flatten(ProcesarContenido(texto).parts) == texto
    ensures ProcesarContenido(texto).PlainText? ==> ProcesarContenido(texto).text == texto
  {
    PartsReconstruct(texto, 0);
  }

  /** No plain-text segment is empty. */
  lemma {:induction false} NoEmptyText(s: string, i: nat)
    requires i <= |s|
    ensures forall j :: 0 <= j < |Parts(s, i)| && Parts(s, i)[j].TextSegment? ==> Parts(s, i)[j].text != ""
    decreases |s| - i
  {
    match NextMatch(s, i)
    case None =>
    case Some(m) =>
      NoEmptyText(s, m.end);
  }

  /** The text itself comes back (instead of a segment list) exactly when it
      is empty. */
  lemma PlainOnlyWhenEmpty(texto: string)
    ensures ProcesarContenido(texto).PlainText? <==> texto == ""
  {
    if texto == "" {
      assert MatchAt(texto, 0).None?;
    }
  }

  /** The links of a segment list, in order. */
  function Links(ps: seq<Segment>): (ls: seq<Segment>)
    ensures forall j :: 0 <= j < |ls| ==> ls[j].LinkSegment? && ls[j] in ps
  {
    if ps == [] then []
    else if ps[0].LinkSegment? then [ps[0]] + Links(ps[1..])
    else Links(ps[1..])
  }

  lemma LinksCons(p: Segment, ps: seq<Segment>)
    ensures Links([p] + ps) == (if p.LinkSegment? then [p] else []) + Links(ps)
  {
    assert ([p] + ps)[1..] == ps;
  }

  /** Each link is built from the match at the same place in the scan: the
      digits exactly as written (leading zeros kept, so its `href` is
      `#doc-` followed by them), the raw group-2 capture as its label, and
      the matched marker text. */
  lemma {:induction false} LinksAreSpans(s: string, i: nat)
    requires i <= |s|
    ensures |Links(Parts(s, i))| == |Scan(s, i)|
    ensures forall j :: 0 <= j < |Scan(s, i)| ==> ValidSpan(s, Scan(s, i)[j])
    ensures forall j :: 0 <= j < |Scan(s, i)| ==> Links(Parts(s, i))[j] == LinkOf(s, Scan(s, i)[j])
    decreases |s| - i
  {
    match NextMatch(s, i)
    case None =>
      if i < |s| {
        LinksCons(TextSegment(s[i..]), []);
      }
    case Some(m) =>
      var link := LinkOf(s, m);
      var rest := Parts(s, m.end);
      LinksAreSpans(s, m.end);
      LinksCons(link, rest);
      if m.start > i {
        LinksCons(TextSegment(s[i..m.start]), [link] + rest);
      }
      var ls := Links(Parts(s, i));
      var ms := Scan(s, i);
      assert ls == [link] + Links(rest);
      assert ms == [m] + Scan(s, m.end);
      forall j | 0 <= j < |ms|
        ensures ValidSpan(s, ms[j])
        ensures ls[j] == LinkOf(s, ms[j])
      {
        if j > 0 {
          assert ls[j] == Links(rest)[j - 1] && ms[j] == Scan(s, m.end)[j - 1];
        }
      }
  }

  /** The links pair up, one to one and in order, with the route's records
      for the same text: each link's digits read as the record's id, and its
      raw name trims to the record's name. */
  lemma LinksAreRecords(s: string, i: nat)
    requires i <= |s|
    ensures |Links(Parts(s, i))| == |Records(s, i)|
    ensures forall j :: 0 <= j < |Records(s, i)| ==>
              && AllDigits(Links(Parts(s, i))[j].docId)
              && DecimalValue(Links(Parts(s, i))[j].docId) == Records(s, i)[j].id
              && Trim(Links(Parts(s, i))[j].nombre) == Records(s, i)[j].nombre
  {
    LinksAreSpans(s, i);
    RecordsOfScan(s, i);
  }

  /** The message's links and the route's `documentos` for the same text
      agree in number, order, id and trimmed name. */
  lemma LinksMatchParser(texto: string)
    ensures ProcesarContenido(texto).Segments? ==> |Links(ProcesarContenido(texto).parts)| == |ParseMarkers(texto)|
    ensures ProcesarContenido(texto).PlainText? ==> ParseMarkers(texto) == []
    ensures ProcesarContenido(texto).Segments? ==>
              forall j :: 0 <= j < |ParseMarkers(texto)| ==>
                && AllDigits(Links(ProcesarContenido(texto).parts)[j].docId)
                && DecimalValue(Links(ProcesarContenido(texto).parts)[j].docId) == ParseMarkers(texto)[j].id
                && Trim(Links(ProcesarContenido(texto).parts)[j].nombre) == ParseMarkers(texto)[j].nombre
  {
    LinksAreRecords(texto, 0);
  }

  /** Spaces before a name add no `]`. */
  lemma NoCloseInPadded(w: string, n: string)
    requires AllWhitespace(w) && ']' !in n
    ensures ']' !in w + n
  {
    forall k | 0 <= k < |w + n| ensures (w + n)[k] != ']' {
      if k < |w| {
        assert (w + n)[k] == w[k] && IsWhitespace(w[k]);
      } else {
        assert (w + n)[k] == n[k - |w|];
      }
    }
  }

  /** The segments of a lone marker `[Doc d:` w n `]`, where the spaces w
      that `\s*` consumes may be empty: one link holding the digits as
      written and, as the label, the name from its first non-space on. */
  lemma LoneMarkerParts(s: string, d: string, w: string, n: string)
    requires d != [] && AllDigits(d)
    requires AllWhitespace(w)
    requires n != [] && ']' !in n && !IsWhitespace(n[0])
    requires s == Open + d + ":" + w + n + "]"
    ensures Parts(s, 0) == [LinkSegment(d, n, s)]
  {
    NoCloseInPadded(w, n);
    assert s == Open + d + ":" + (w + n) + "]";
    LoneMarkerScan(d, w + n);
    var m := Span(0, 5 + |d|, |s|);
    assert NameCapture(s, m) == n by {
      TrimStartOfWhitespacePrefix(w, n);
      assert TrimStart(n) == n;
      assert TrimStart(TailOf(s, m)) == n;
    }
    assert Parts(s, |s|) == [];
    assert s[0..|s|] == s;
  }

  /** A lone marker renders as one link: its target keeps the digits exactly
      as written (leading zeros included, where the route's id drops them),
      and its label is the name after the spaces that follow the colon, with
      its trailing spaces kept, where the route trims it. This covers the
      form the system prompt asks for, `[Doc 5: Contrato]`. */
  lemma LoneMarkerLink(d: string, w: string, n: string)
    requires d != [] && AllDigits(d)
    requires AllWhitespace(w)
    requires n != [] && ']' !in n && !IsWhitespace(n[0])
    ensures ProcesarContenido(Open + d + ":" + w + n + "]") == Segments([LinkSegment(d, n, Open + d + ":" + w + n + "]")])
    ensures ParseMarkers(Open + d + ":" + w + n + "]") == [Marker(DecimalValue(d), Trim(n))]
  {
    var s := Open + d + ":" + w + n + "]";
    LoneMarkerParts(s, d, w, n);
    NoCloseInPadded(w, n);
    assert s == Open + d + ":" + (w + n) + "]";
    LoneMarker(d, w + n);
    TrimIgnoresWhitespacePrefix(w, n);
  }

  /** `doc.url || \`#doc-${doc.id}\``: the document's own URL when it is a
      non-empty string, otherwise an in-page anchor with the id. */
  function DocHref(doc: DocumentoRef): string {
    if doc.url.Some? && doc.url.value != "" then doc.url.value else Href(NatToDecimal(doc.id))
  }

  /** The fallback anchor carries the id in decimal, and reading it back gives
      the id. */
  lemma DocHrefFallback(doc: DocumentoRef)
    ensures doc.url.Some? && doc.url.value != "" ==> DocHref(doc) == doc.url.value
    ensures doc.url.None? || doc.url.value == "" ==>
              var h := DocHref(doc);
              && |h| > 5 && h[..5] == "#doc-"
              && AllDigits(h[5..]) && DecimalValue(h[5..]) == doc.id
  {
    if doc.url.None? || doc.url.value == "" {
      var h := DocHref(doc);
      assert h[5..] == NatToDecimal(doc.id);
      DecimalRoundTrip(doc.id);
    }
  }

  /** One entry of the "Documentos mencionados" list. */
  datatype DocLink = DocLink(href: string, caption: string)

  /** The list under the message: present only when `documentos` is present
      and non-empty, one entry per document in order. */
  function DocumentList(m: Message): Option<seq<DocLink>> {
    if m.documentos.Some? && |m.documentos.value| > 0 then
      Some(seq(|m.documentos.value|, j requires 0 <= j < |m.documentos.value| =>
        DocLink(DocHref(m.documentos.value[j]), m.documentos.value[j].nombre)))
    else None
  }

  /** The list shows exactly when there are documents, one entry each, in
      order, labelled with the document's name and pointing at its URL or its
      anchor. */
  lemma DocumentListShape(m: Message)
    ensures DocumentList(m).Some? <==> m.documentos.Some? && m.documentos.value != []
    ensures DocumentList(m).Some? ==>
              && |DocumentList(m).value| == |m.documentos.value|
              && forall j :: 0 <= j < |m.documentos.value| ==>
                   DocumentList(m).value[j] == DocLink(DocHref(m.documentos.value[j]), m.documentos.value[j].nombre)
  {
  }
}
