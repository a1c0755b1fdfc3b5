/** The chat route's `POST` handler (app/api/chat/route.ts): validate the
    posted message, assemble the message list for the completion service
    (system prompt, prior turns, the new message), turn the completion into a
    reply with the citations it mentions, and map every failure to a 500.

    The completion service is not called here: its outcome is an input of the
    handler, and the handler reports the request it would have sent. */
module ChatRoute {
  import opened Types
  import opened Text
  import opened Markers
  import opened Citations

  /** The document index the prompt embeds (a fixed mock). */
  const MockIndice: string :=
    "\nID 1: Contrato_Compraventa_Inmueble.docx\nTipo: Contrato\n"
    + "Resumen: Contrato para transferencia de propiedades inmobiliarias. Incluye cláusulas de garantía, forma de pago, vicios ocultos y entrega del bien.\n"
    + "Keywords: compraventa, inmueble, escritura, garantías\n\n"
    + "ID 2: Poder_General_Notarial.docx\nTipo: Poder\n"
    + "Resumen: Poder amplio para representación legal en trámites diversos. Permite al apoderado actuar en nombre del otorgante.\n"
    + "Keywords: poder, representación, trámites, legal\n\n"
    + "ID 3: Poder_Especial_Vehiculos.docx\nTipo: Poder\n"
    + "Resumen: Poder específico para trámites vehiculares ante MOPT. Incluye traspasos, cambios de propietario y gestión de placas.\n"
    + "Keywords: poder, vehículos, MOPT, traspaso, placas\n\n"
    + "ID 4: Testamento_Abierto.docx\nTipo: Testamento\n"
    + "Resumen: Testamento abierto con disposiciones de bienes. Incluye herederos, legados y disposiciones finales.\n"
    + "Keywords: testamento, herederos, legados, sucesión\n\n"
    + "ID 5: Contrato_Arrendamiento.docx\nTipo: Contrato\n"
    + "Resumen: Contrato de arrendamiento de inmueble. Incluye cláusulas de pago, duración, obligaciones del arrendador y arrendatario.\n"
    + "Keywords: arrendamiento, alquiler, renta, inmueble\n"

  /** The citation format the prompt asks the model to use. */
  const CitationFormat: string := "[Doc ID: nombre]"

  const PromptHead: string :=
    "Eres un asistente EXCLUSIVO del workspace de documentos legales para notarios.\n\nDOCUMENTOS DISPONIBLES:\n"

  const PromptMiddle: string :=
    "\n\nINSTRUCCIONES:\n- SOLO responde preguntas sobre los documentos del workspace\n- Si mencionas documentos, usa el formato: "

  const PromptTail: string :=
    "\n- Responde de forma CONCISA (máximo 150 palabras)\n"
    + "- Si te preguntan algo NO relacionado con el workspace, responde:\n"
    + "  \"Solo puedo ayudarte con consultas sobre tus documentos del workspace. ¿Necesitas buscar algún machote?\"\n"
    + "- Para búsquedas, identifica los documentos relevantes por sus keywords y tipo\n"
    + "- Sugiere cuál documento usar según la necesidad"

  /** The system prompt: the template literal with the index interpolated. */
  const SystemPrompt: string := PromptHead + MockIndice + PromptMiddle + CitationFormat + PromptTail

  const Placeholder: string := "No pude generar una respuesta."
  const InvalidMessage: string := "Mensaje inválido"
  const ProcessingError: string := "Error al procesar la solicitud"

  /** `t` occurs in `s` as a contiguous piece. */
  predicate Contains(s: string, t: string) {
    exists i :: 0 <= i <= |s| && t <= s[i..]
  }

  /** The second and fourth of five pieces occur in their concatenation. */
  lemma ContainsPieces(a: string, b: string, c: string, d: string, e: string)
    ensures Contains(a + b + c + d + e, b)
    ensures Contains(a + b + c + d + e, d)
  {
    var s := a + b + c + d + e;
    assert s[|a|..] == b + (c + d + e);
    assert s[|a + b + c|..] == d + e;
  }

  /** The system entry of the message list has role `system`, and its
      prompt embeds the whole document index ... */
  lemma SystemPromptHasIndex()
    ensures Wire(SystemMessage).role == "system"
    ensures Contains(Wire(SystemMessage).content, MockIndice)
  {
    ContainsPieces(PromptHead, MockIndice, PromptMiddle, CitationFormat, PromptTail);
  }

  /** ... and spells out the citation format the route later parses. */
  lemma SystemPromptHasFormat()
    ensures Contains(Wire(SystemMessage).content, CitationFormat)
  {
    ContainsPieces(PromptHead, MockIndice, PromptMiddle, CitationFormat, PromptTail);
  }

  /** The format as the prompt spells it is not itself a citation: `ID` is
      not a digit run, so the text parses to no record. */
  lemma CitationFormatIsNotAMarker()
    ensures ParseMarkers(CitationFormat) == []
  {
    forall p | OpenAt(CitationFormat, p)
      ensures Malformed(CitationFormat, p)
    {
      assert p == 0;
      assert !IsDigit(CitationFormat[5]);
    }
    MalformedBracketsYieldNothing(CitationFormat);
  }

  /** The `mensaje` property of the parsed body: absent, a JSON string, or
      some other JSON value (number, boolean, null, array, object). */
  datatype MensajeField = Absent | JsonString(text: string) | NonString

  /** One element of the posted `historial` array: an object whose role and
      content are read as they are, or `null`/`undefined`, on which reading
      `msg.role` throws a `TypeError` with the given message. */
  datatype HistoryItem = TurnItem(turn: Turn) | NullishItem(error: string)

  /** The `historial` property: an array, or anything without a `map`
      method, on which the call throws a `TypeError` with the given message. */
  datatype Historial = HistArray(items: seq<HistoryItem>) | NotArray(error: string)

  /** What `await req.json()` and the destructuring produce: the two fields,
      or a thrown error (a body that is not JSON, or a `null` body). */
  datatype Body = Fields(mensaje: MensajeField, historial: Historial) | Unreadable(error: string)

  /** Token counts reported by the completion service, passed through. */
  datatype Usage = Usage(promptTokens: nat, completionTokens: nat, totalTokens: nat)

  /** What the completion call yields: the first choice's content (possibly
      `null`) with the usage (absent when the service reports none), or a
      thrown error with its message. */
  datatype Completion = Completed(content: Option<string>, usage: Option<Usage>) | Failed(error: string)

  /** One entry of the message list the route sends: the fixed system
      prompt, or a conversation turn with its role and content. */
  datatype ApiMessage = SystemMessage | ChatTurn(turn: Turn)

  /** The `{role, content}` pair an entry stands for. */
  function Wire(m: ApiMessage): Turn
  {
    match m
    case SystemMessage => Turn("system", SystemPrompt)
    case ChatTurn(t) => t
  }

  /** The arguments of `openai.chat.completions.create`. */
  datatype CompletionRequest = CompletionRequest(model: string, messages: seq<ApiMessage>, temperature: real, maxTokens: nat)

  datatype ResponseBody =
    | ErrorBody(error: string, details: Option<string>)
    | AnswerBody(respuesta: string, documentos: seq<Marker>, usage: Option<Usage>)

  datatype Response = Response(status: nat, body: ResponseBody)

  /** The whole handling of one request: the completion request it makes (if
      it gets that far) and the response it returns. */
  datatype Handling = Handling(request: Option<CompletionRequest>, response: Response)

  /** `!mensaje || typeof mensaje !== 'string'` fails: a non-empty string. */
  predicate MensajeValid(f: MensajeField) {
    f.JsonString? && f.text != ""
  }

  /** `historial.map(...)`: the turns in order, or the error of the first
      element (or of the value itself) that cannot be read. */
  function HistoryTurns(h: Historial): (r: Result)
    ensures r.Ok? <==> h.HistArray? && forall j :: 0 <= j < |h.items| ==> h.items[j].TurnItem?
    ensures r.Ok? ==> |r.turns| == |h.items| && forall j :: 0 <= j < |h.items| ==> r.turns[j] == h.items[j].turn
    ensures h.NotArray? ==> r == Err(h.error)
    ensures h.HistArray? && r.Err? ==>
              exists j :: 0 <= j < |h.items| && h.items[j] == NullishItem(r.error)
                && forall x :: 0 <= x < j ==> h.items[x].TurnItem?
  {
    match h
    case NotArray(e) => Err(e)
    case HistArray(items) => ItemTurns(items)
  }

  datatype Result = Ok(turns: seq<Turn>) | Err(error: string)

  function ItemTurns(items: seq<HistoryItem>): (r: Result)
    ensures r.Ok? <==> forall j :: 0 <= j < |items| ==> items[j].TurnItem?
    ensures r.Ok? ==> |r.turns| == |items| && forall j :: 0 <= j < |items| ==> r.turns[j] == items[j].turn
    ensures r.Err? ==> exists j :: 0 <= j < |items| && items[j] == NullishItem(r.error)
                          && forall x :: 0 <= x < j ==> items[x].TurnItem?
  {
    if items == [] then Ok([])
    else match items[0]
      case NullishItem(e) => Err(e)
      case TurnItem(t) =>
        match ItemTurns(items[1..])
        case Err(e) => Err(e)
        case Ok(ts) => Ok([t] + ts)
  }

  /** The message list sent to the completion service. */
  function BuildMessages(turns: seq<Turn>, mensaje: string): (ms: seq<ApiMessage>)
  {
    [SystemMessage] + seq(|turns|, j requires 0 <= j < |turns| => ChatTurn(turns[j])) + [ChatTurn(Turn("user", mensaje))]
  }

  /** `completion.choices[0].message.content || placeholder`. */
  function Respuesta(content: Option<string>): (r: string)
    ensures r != ""
    ensures content.Some? && content.value != "" ==> r == content.value
    ensures content.None? || content.value == "" ==> r == Placeholder
  {
    if content.Some? && content.value != "" then content.value else Placeholder
  }

  function Failure(error: string): Response {
    Response(500, ErrorBody(ProcessingError, Some(error)))
  }

  /** `POST`. */
  function Post(body: Body, outcome: Completion): (h: Handling)
  {
    match body
    case Unreadable(e) => Handling(None, Failure(e))
    case Fields(mensaje, historial) =>
      if !MensajeValid(mensaje) then
        Handling(None, Response(400, ErrorBody(InvalidMessage, None)))
      else
        match HistoryTurns(historial)
        case Err(e) => Handling(None, Failure(e))
        case Ok(turns) =>
          var req := CompletionRequest("gpt-4o-mini", BuildMessages(turns, mensaje.text), 0.7, 400);
          match outcome
          case Failed(e) => Handling(Some(req), Failure(e))
          case Completed(content, usage) =>
            var respuesta := Respuesta(content);
            Handling(Some(req), Response(200, AnswerBody(respuesta, ParseMarkers(respuesta), usage)))
  }

  /** A 400 is returned exactly when the body was read and `mensaje` is not a
      non-empty string; it carries `Mensaje inválido` and no completion is
      requested. */
  lemma PostRejectsInvalid(body: Body, outcome: Completion)
    ensures Post(body, outcome).response.status == 400 <==> body.Fields? && !MensajeValid(body.mensaje)
    ensures Post(body, outcome).response.status == 400 ==>
              && Post(body, outcome).response.body == ErrorBody(InvalidMessage, None)
              && Post(body, outcome).request.None?
  {
  }

  /** The completion is requested exactly when the body was read, `mensaje`
      is valid and every `historial` element could be read; the request asks
      `gpt-4o-mini` (temperature 0.7, at most 400 tokens) with the system
      prompt first, the prior turns in order with role and content only, and
      the new message last. */
  lemma PostRequest(body: Body, outcome: Completion)
    ensures Post(body, outcome).request.Some? <==>
              && body.Fields? && MensajeValid(body.mensaje)
              && body.historial.HistArray?
              && forall j :: 0 <= j < |body.historial.items| ==> body.historial.items[j].TurnItem?
    ensures Post(body, outcome).request.Some? ==>
              var r := Post(body, outcome).request.value;
              var items := body.historial.items;
              && r.model == "gpt-4o-mini" && r.temperature == 0.7 && r.maxTokens == 400
              && |r.messages| == |items| + 2
              && r.messages[0] == SystemMessage
              && (forall j :: 0 <= j < |items| ==> r.messages[j + 1] == ChatTurn(items[j].turn))
              && r.messages[|items| + 1] == ChatTurn(Turn("user", body.mensaje.text))
  {
  }

  /** A completion that comes back is answered with 200: its text, or the
      placeholder when the text is `null` or empty, the citations parsed from
      that text, and the service's usage unchanged. */
  lemma PostAnswers(body: Body, outcome: Completion)
    requires Post(body, outcome).request.Some? && outcome.Completed?
    ensures Post(body, outcome).response.status == 200
    ensures Post(body, outcome).response.body.AnswerBody?
    ensures var b := Post(body, outcome).response.body;
            && (outcome.content.Some? && outcome.content.value != "" ==> b.respuesta == outcome.content.value)
            && (outcome.content.None? || outcome.content.value == "" ==> b.respuesta == Placeholder)
            && b.documentos == ParseMarkers(b.respuesta)
            && b.usage == outcome.usage
  {
  }

  /** Every thrown failure becomes a 500 `Error al procesar la solicitud`
      carrying the error's message: an unreadable body, an unreadable
      `historial` (reported before any completion is requested), or a failed
      completion. Nothing else yields 500. */
  lemma PostFailures(body: Body, outcome: Completion)
    ensures body.Unreadable? ==> Post(body, outcome) == Handling(None, Response(500, ErrorBody(ProcessingError, Some(body.error))))
    ensures body.Fields? && MensajeValid(body.mensaje) && body.historial.NotArray? ==>
              Post(body, outcome) == Handling(None, Response(500, ErrorBody(ProcessingError, Some(body.historial.error))))
    ensures body.Fields? && MensajeValid(body.mensaje) && body.historial.HistArray?
              && (exists x :: 0 <= x < |body.historial.items| && body.historial.items[x].NullishItem?) ==>
              && Post(body, outcome).request.None?
              && Post(body, outcome).response.status == 500
              && exists j :: 0 <= j < |body.historial.items| && body.historial.items[j].NullishItem?
                   && (forall x :: 0 <= x < j ==> body.historial.items[x].TurnItem?)
                   && Post(body, outcome).response.body == ErrorBody(ProcessingError, Some(body.historial.items[j].error))
    ensures Post(body, outcome).request.Some? && outcome.Failed? ==>
              Post(body, outcome).response == Response(500, ErrorBody(ProcessingError, Some(outcome.error)))
    ensures Post(body, outcome).response.status == 500 <==>
              body.Unreadable? || (body.Fields? && MensajeValid(body.mensaje) && HistoryTurns(body.historial).Err?)
              || (Post(body, outcome).request.Some? && outcome.Failed?)
  {
  }

  /** The route answers only 200, 400 or 500, and 200 exactly with an answer. */
  lemma PostStatuses(body: Body, outcome: Completion)
    ensures Post(body, outcome).response.status in {200, 400, 500}
    ensures Post(body, outcome).response.status == 200 <==> Post(body, outcome).response.body.AnswerBody?
  {
  }
}
