/** The chat page (app/chat/page.tsx): the conversation list and the loading
    flag, changed by sending a message and by clearing the chat.

    A send is modelled as one atomic transition that also reports the state
    while the request is in flight and the request it makes. Whether a
    session token is stored and what the server does are inputs. */
module ChatPage {
  import opened Types

  /** The page's state: the conversation shown and whether a send is in flight. */
  datatype PageState = PageState(mensajes: seq<Message>, cargando: bool)

  const Apology: string := "Lo siento, ocurrió un error al procesar tu mensaje. Por favor intenta de nuevo."
  const RetrySuffix: string := "\n\nPor favor intenta de nuevo en unos momentos."

  /** The fields of a JSON reply the page looks at. `error` and `details`
      are absent or strings, `retry` is its truthiness. */
  datatype ServerData = ServerData(
    error: Option<string>,
    details: Option<string>,
    retry: bool,
    respuesta: Option<string>,
    documentos: Option<seq<DocumentoRef>>)

  /** What `fetch` and `response.json()` give: a network failure, or a reply
      with its `ok` flag and its body. The body is absent when it is not JSON
      or is JSON `null` (parsing, or reading `data.error`, then throws); any
      other JSON value that is not an object reads every field as absent,
      which is the `ServerData` with no fields set. */
  datatype FetchOutcome = NetworkFailure | HttpReply(ok: bool, data: Option<ServerData>)

  /** `data.error` is truthy. */
  predicate HasError(d: ServerData) {
    d.error.Some? && d.error.value != ""
  }

  /** `x || ''` on an optional string. */
  function OrEmpty(x: Option<string>): string {
    if x.Some? then x.value else ""
  }

  /** The first part of an error text, up to the details. */
  function ErrorHead(error: string): string {
    "❌ " + error + "\n\n"
  }

  /** The assistant text for a reply that carries an error. */
  function ErrorText(error: string, details: Option<string>, retry: bool): string {
    ErrorHead(error) + OrEmpty(details) + (if retry then RetrySuffix else "")
  }

  /** Reads the details back out of an error text, knowing the error and
      whether a retry was asked for. */
  function DetailsIn(t: string, error: string, retry: bool): Option<string> {
    var h := ErrorHead(error);
    var n := if retry then |RetrySuffix| else 0;
    if |h| + n <= |t| && t[..|h|] == h && t[|t| - n..] == (if retry then RetrySuffix else "")
    then Some(t[|h|..|t| - n])
    else None
  }

  /** An error text starts with the error, ends with the retry request when
      one was asked for, and the details can be read back out of it. */
  lemma ErrorTextRoundTrip(error: string, details: Option<string>, retry: bool)
    ensures ErrorText(error, details, retry)[..|ErrorHead(error)|] == ErrorHead(error)
    ensures retry ==> |ErrorText(error, details, retry)| >= |RetrySuffix|
                      && ErrorText(error, details, retry)[|ErrorText(error, details, retry)| - |RetrySuffix|..] == RetrySuffix
    ensures DetailsIn(ErrorText(error, details, retry), error, retry) == Some(OrEmpty(details))
  {
    var h := ErrorHead(error);
    var d := OrEmpty(details);
    var t := ErrorText(error, details, retry);
    if retry {
      assert t == h + d + RetrySuffix;
      assert t[..|h|] == h;
      assert t[|t| - |RetrySuffix|..] == RetrySuffix;
      assert t[|h|..|t| - |RetrySuffix|] == d;
    } else {
      assert t == h + d;
      assert t[..|h|] == h;
      assert t[|h|..|t|] == d;
    }
  }

  function AssistantMessage(content: string, documentos: Option<seq<DocumentoRef>>): Message {
    Message(Assistant, content, documentos, None)
  }

  /** The one assistant message a send ends with. */
  function Reply(hasToken: bool, outcome: FetchOutcome): Message {
    if !hasToken then AssistantMessage(Apology, None)
    else match outcome
      case NetworkFailure => AssistantMessage(Apology, None)
      case HttpReply(ok, data) =>
        if !ok || data.None? then AssistantMessage(Apology, None)
        else if HasError(data.value) then
          AssistantMessage(ErrorText(data.value.error.value, data.value.details, data.value.retry), None)
        else AssistantMessage(OrEmpty(data.value.respuesta), data.value.documentos)
  }

  /** A whole send: the state while the request is in flight, the request
      posted (if any), and the state once it settles. */
  datatype Send = Send(inFlight: PageState, request: Option<ChatRequest>, settled: PageState)

  function UserMessage(texto: string): Message {
    Message(User, texto, None, None)
  }

  /** `enviarMensaje`. */
  function EnviarMensaje(st: PageState, texto: string, hasToken: bool, outcome: FetchOutcome): Send {
    var inFlight := PageState(st.mensajes + [UserMessage(texto)], true);
    var request := if hasToken then Some(ChatRequest(texto, History(st.mensajes))) else None;
    Send(inFlight, request, PageState(inFlight.mensajes + [Reply(hasToken, outcome)], false))
  }

  /** Every send appends the user's message first and then exactly one
      assistant message, and keeps what was there. */
  lemma SendAppendsTwo(st: PageState, texto: string, hasToken: bool, outcome: FetchOutcome)
    ensures var s := EnviarMensaje(st, texto, hasToken, outcome);
            && |s.settled.mensajes| == |st.mensajes| + 2
            && s.settled.mensajes[..|st.mensajes|] == st.mensajes
            && s.inFlight.mensajes == s.settled.mensajes[..|st.mensajes| + 1]
            && s.settled.mensajes[|st.mensajes|] == UserMessage(texto)
            && s.settled.mensajes[|st.mensajes| + 1].role == Assistant
  {
    var s := EnviarMensaje(st, texto, hasToken, outcome);
    assert s.settled.mensajes[..|st.mensajes| + 1] == s.inFlight.mensajes;
  }

  /** `cargando` is set while the request is in flight and cleared after any
      outcome. */
  lemma LoadingLifecycle(st: PageState, texto: string, hasToken: bool, outcome: FetchOutcome)
    ensures EnviarMensaje(st, texto, hasToken, outcome).inFlight.cargando
    ensures !EnviarMensaje(st, texto, hasToken, outcome).settled.cargando
  {
  }

  /** A request is made exactly when a token is stored; it carries the new
      text as `mensaje` and, as `historial`, the conversation as it was
      before the new message, each entry reduced to role and content. */
  lemma RequestSpec(st: PageState, texto: string, hasToken: bool, outcome: FetchOutcome)
    ensures EnviarMensaje(st, texto, hasToken, outcome).request.Some? <==> hasToken
    ensures hasToken ==>
              var r := EnviarMensaje(st, texto, hasToken, outcome).request.value;
              && r.mensaje == texto
              && |r.historial| == |st.mensajes|
              && forall j :: 0 <= j < |st.mensajes| ==>
                   r.historial[j] == Turn(RoleName(st.mensajes[j].role), st.mensajes[j].content)
  {
  }

  /** The message a send ends with. */
  function Last(s: Send): Message
    requires s.settled.mensajes != []
  {
    s.settled.mensajes[|s.settled.mensajes| - 1]
  }

  /** The assistant message for each outcome: the apology without a token
      (and then no request is made), on a network failure, on a reply that is
      not ok and on a body that is not JSON; the formatted error for a reply
      whose `error` is truthy; otherwise `respuesta` with its documents. */
  lemma ReplyCases(st: PageState, texto: string, hasToken: bool, outcome: FetchOutcome)
    ensures !hasToken ==>
              && EnviarMensaje(st, texto, hasToken, outcome).request.None?
              && Last(EnviarMensaje(st, texto, hasToken, outcome)) == AssistantMessage(Apology, None)
    ensures outcome.NetworkFailure? || (outcome.HttpReply? && (!outcome.ok || outcome.data.None?)) ==>
              Last(EnviarMensaje(st, texto, hasToken, outcome)) == AssistantMessage(Apology, None)
    ensures hasToken && outcome.HttpReply? && outcome.ok && outcome.data.Some? && HasError(outcome.data.value) ==>
              var d := outcome.data.value;
              Last(EnviarMensaje(st, texto, hasToken, outcome)) == AssistantMessage(ErrorText(d.error.value, d.details, d.retry), None)
    ensures hasToken && outcome.HttpReply? && outcome.ok && outcome.data.Some? && !HasError(outcome.data.value) ==>
              var d := outcome.data.value;
              Last(EnviarMensaje(st, texto, hasToken, outcome)) == AssistantMessage(OrEmpty(d.respuesta), d.documentos)
  {
  }

  /** `limpiarChat`: with confirmation the conversation is emptied, without
      it nothing changes; the loading flag is never touched. */
  function LimpiarChat(st: PageState, confirmed: bool): (r: PageState)
  {
    if confirmed then st.(mensajes := []) else st
  }

  lemma LimpiarChatSpec(st: PageState, confirmed: bool)
    ensures confirmed ==> LimpiarChat(st, confirmed).mensajes == []
    ensures !confirmed ==> LimpiarChat(st, confirmed) == st
    ensures LimpiarChat(st, confirmed).cargando == st.cargando
  {
  }
}
