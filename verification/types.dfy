/** The records the client keeps and exchanges (lib/types.ts). The client's
    random message id and its timestamp are not modelled: neither takes part
    in any decision. */
module Types {

  /** An optional field (`x?: T`), also used for values that may be `null`. */
  datatype Option<+T> = None | Some(value: T)

  /** Who wrote a message the client shows. */
  datatype Role = User | Assistant

  /** A referenced document: numeric id, display name and, when known,
      the URL where it can be opened. */
  datatype DocumentoRef = DocumentoRef(id: nat, nombre: string, url: Option<string>)

  /** A message of the client-side conversation. */
  datatype Message = Message(
    role: Role,
    content: string,
    documentos: Option<seq<DocumentoRef>>,
    todosDocumentos: Option<seq<DocumentoRef>>)

  /** The wire spelling of a role, as `{role, content}` pairs carry it. */
  function RoleName(r: Role): (name: string)
    ensures name == "user" <==> r == User
    ensures name == "assistant" <==> r == Assistant
  {
    match r
    case User => "user"
    case Assistant => "assistant"
  }

  /** One prior turn as the client sends it in `historial`: role and text only. */
  datatype Turn = Turn(role: string, content: string)

  /** What the client posts to the chat route. */
  datatype ChatRequest = ChatRequest(mensaje: string, historial: seq<Turn>)

  /** `historial` as the client builds it: every message projected to its
      role and content, in order. */
  function History(ms: seq<Message>): (h: seq<Turn>)
    ensures |h| == |ms|
    ensures forall i :: 0 <= i < |ms| ==>
              h[i].role == RoleName(ms[i].role) && h[i].content == ms[i].content
  {
    seq(|ms|, i requires 0 <= i < |ms| => Turn(RoleName(ms[i].role), ms[i].content))
  }
}
