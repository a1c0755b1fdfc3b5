/** How the pieces meet: the text the input box sends, the request the page
    posts, how the route handles it, and what the page then shows. The page
    and the route are joined by the obvious reading of each other's JSON. */
module Conversation {
  import opened Types
  import opened Text
  import opened Citations
  import ChatRoute
  import ChatMessageView
  import ChatInputBox
  import ChatPage

  /** The route's `documentos`, as the page stores them: no URLs. */
  function DocRefs(ks: seq<Marker>): (ds: seq<DocumentoRef>)
    ensures |ds| == |ks|
    ensures forall j :: 0 <= j < |ks| ==> ds[j] == DocumentoRef(ks[j].id, ks[j].nombre, None)
  {
    seq(|ks|, j requires 0 <= j < |ks| => DocumentoRef(ks[j].id, ks[j].nombre, None))
  }

  /** The route's JSON body as the page reads it. */
  function AsServerData(b: ChatRoute.ResponseBody): ChatPage.ServerData {
    match b
    case ErrorBody(e, d) => ChatPage.ServerData(Some(e), d, false, None, None)
    case AnswerBody(r, ks, _) => ChatPage.ServerData(None, None, false, Some(r), Some(DocRefs(ks)))
  }

  /** What `fetch` and `response.json()` give the page for a route response. */
  function Delivered(r: ChatRoute.Response): ChatPage.FetchOutcome {
    ChatPage.HttpReply(200 <= r.status < 300, Some(AsServerData(r.body)))
  }

  /** The page's request body as the route reads it. */
  function AsBody(req: ChatRequest): ChatRoute.Body {
    ChatRoute.Fields(
      ChatRoute.JsonString(req.mensaje),
      ChatRoute.HistArray(seq(|req.historial|, j requires 0 <= j < |req.historial| => ChatRoute.TurnItem(req.historial[j]))))
  }

  /** Any text the input box hands to the page passes the route's check. */
  lemma SentTextIsValid(mensaje: string, disabled: bool)
    requires ChatInputBox.HandleSubmit(mensaje, disabled).sent.Some?
    ensures ChatRoute.MensajeValid(ChatRoute.JsonString(ChatInputBox.HandleSubmit(mensaje, disabled).sent.value))
  {
    ChatInputBox.SentIsTrimmed(mensaje, disabled);
  }

  /** While a send is in flight the box is disabled: the button is off and
      submitting sends nothing, so no second send can start. */
  lemma NoSendWhileLoading(st: ChatPage.PageState, mensaje: string)
    requires st.cargando
    ensures ChatInputBox.ButtonDisabled(mensaje, st.cargando)
    ensures ChatInputBox.HandleSubmit(mensaje, st.cargando).sent.None?
  {
  }

  /** The body the page posts, as the route reads it: the text as a JSON
      string and every history entry a turn. */
  lemma PageBody(mensajes: seq<Message>, texto: string)
    ensures var b := AsBody(ChatRequest(texto, History(mensajes)));
            && b.Fields? && b.mensaje == ChatRoute.JsonString(texto)
            && b.historial.HistArray? && |b.historial.items| == |mensajes|
            && forall j :: 0 <= j < |mensajes| ==>
                 b.historial.items[j] == ChatRoute.TurnItem(Turn(RoleName(mensajes[j].role), mensajes[j].content))
  {
  }

  /** A non-empty text sent with a token reaches the completion service: the
      route asks for a completion whose messages are the system prompt, the
      page's conversation before the new message (role and content), and the
      new text as the user's turn. */
  lemma SendReachesCompletion(st: ChatPage.PageState, texto: string, outcome: ChatPage.FetchOutcome, completion: ChatRoute.Completion)
    requires texto != ""
    ensures var req := ChatPage.EnviarMensaje(st, texto, true, outcome).request.value;
            var h := ChatRoute.Post(AsBody(req), completion);
            && h.request.Some?
            && |h.request.value.messages| == |st.mensajes| + 2
            && h.request.value.messages[0] == ChatRoute.SystemMessage
            && (forall j :: 0 <= j < |st.mensajes| ==>
                  h.request.value.messages[j + 1]
                  == ChatRoute.ChatTurn(Turn(RoleName(st.mensajes[j].role), st.mensajes[j].content)))
            && h.request.value.messages[|st.mensajes| + 1] == ChatRoute.ChatTurn(Turn("user", texto))
  {
    var req := ChatPage.EnviarMensaje(st, texto, true, outcome).request.value;
    assert req == ChatRequest(texto, History(st.mensajes));
    var body := AsBody(req);
    PageBody(st.mensajes, texto);
    ChatRoute.PostRequest(body, completion);
    var r := ChatRoute.Post(body, completion).request.value;
    forall j | 0 <= j < |st.mensajes|
      ensures r.messages[j + 1] == ChatRoute.ChatTurn(Turn(RoleName(st.mensajes[j].role), st.mensajes[j].content))
    {
      assert r.messages[j + 1] == ChatRoute.ChatTurn(body.historial.items[j].turn);
    }
  }

  /** Whatever the route answers other than 200 (the 400 for an invalid
      message, the 500 for a failure), the page shows its fixed apology: it
      looks at the status before the body, so the route's `error` and
      `details` never reach the user. */
  lemma RouteErrorShowsApology(st: ChatPage.PageState, texto: string, body: ChatRoute.Body, completion: ChatRoute.Completion)
    requires ChatRoute.Post(body, completion).response.status != 200
    ensures var s := ChatPage.EnviarMensaje(st, texto, true, Delivered(ChatRoute.Post(body, completion).response));
            ChatPage.Last(s) == ChatPage.AssistantMessage(ChatPage.Apology, None)
  {
    ChatRoute.PostStatuses(body, completion);
  }

  /** A 200 from the route is shown as it came: the reply's text, with the
      route's records as the message's documents. */
  lemma RouteAnswerShown(st: ChatPage.PageState, texto: string, body: ChatRoute.Body, completion: ChatRoute.Completion)
    requires ChatRoute.Post(body, completion).response.status == 200
    ensures ChatRoute.Post(body, completion).response.body.AnswerBody?
    ensures var r := ChatRoute.Post(body, completion).response.body.respuesta;
            ChatPage.Last(ChatPage.EnviarMensaje(st, texto, true, Delivered(ChatRoute.Post(body, completion).response)))
            == ChatPage.AssistantMessage(r, Some(DocRefs(ParseMarkers(r))))
  {
    ChatRoute.PostStatuses(body, completion);
    ChatRoute.PostAnswers(body, completion);
  }

  /** Such a message shows its document list exactly when its text cites
      something, and the text's links pair up with the documents in order,
      by id and trimmed name. */
  lemma AnswerLinksMatchDocuments(respuesta: string)
    ensures var m := ChatPage.AssistantMessage(respuesta, Some(DocRefs(ParseMarkers(respuesta))));
            ChatMessageView.DocumentList(m).Some? <==> ParseMarkers(respuesta) != []
    ensures ChatMessageView.ProcesarContenido(respuesta).Segments? ==>
              var ls := ChatMessageView.Links(ChatMessageView.ProcesarContenido(respuesta).parts);
              var ds := DocRefs(ParseMarkers(respuesta));
              && |ls| == |ds|
              && forall j :: 0 <= j < |ls| ==>
                   AllDigits(ls[j].docId) && DecimalValue(ls[j].docId) == ds[j].id && Trim(ls[j].nombre) == ds[j].nombre
  {
    ChatMessageView.LinksMatchParser(respuesta);
    ChatMessageView.DocumentListShape(ChatPage.AssistantMessage(respuesta, Some(DocRefs(ParseMarkers(respuesta)))));
  }
}
