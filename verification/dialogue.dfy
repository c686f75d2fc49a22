/**
 One inbound message, end to end: the turn step of `obter_resposta_ia`
 (bot.py:132-158) and the decision logic of the `/bot` webhook
 (bot.py:160-184). The generative backend is an explicit total function from
 the message list it is sent to its outcome; the clock is explicit: the user's
 turn is written at `received`, the backend's answer at `replied`.
 */
module Dialogue {
  import opened Wrappers
  import opened Session
  import opened Text

  /**
   The behaviour instructions sent as the system turn (the menu, prices and
   attendance protocol). Its wording matters to the backend only; nothing here
   depends on it.
   */
  const SystemPrompt: string := "Luigi, atendente virtual da Pizzaria Bella Napoli: cardapio, dados operacionais e protocolo de atendimento."

  const InternalError: string := "Desculpe, tivemos um erro interno."
  const Instability: string := "Desculpe, estou com instabilidade agora. Pode repetir?"
  const ResetAck: string := "Mem\U{F3}ria apagada! Come\U{E7}ando do zero."
  const ResetCommand: string := "/reset"

  /** Outbound replies are cut to this many characters. */
  const ReplyLimit: nat := 1500

  /**
   What the backend does with one request: answers with the text of the first
   choice, answers with no content (`None`), or raises.
   */
  datatype Completion = Answered(text: string) | NoContent | Raised

  type Backend = seq<Turn> -> Completion

  /** The turns a message contributes to the history: none when it is empty. */
  function Said(role: Role, text: string): seq<Turn> {
    if text == "" then [] else [Turn(role, text)]
  }

  /** The message list sent to the backend: the system turn, then the history. */
  function Request(history: seq<Turn>): seq<Turn> {
    [Turn(System, SystemPrompt)] + history
  }

  /** What the turn step leaves in the store, returns, and sent to the backend. */
  datatype Answer = Answer(store: Store, reply: Option<string>, request: seq<Turn>)

  /**
   `obter_resposta_ia(message, phone)`: remember the user's message at
   `received`, ask the backend with the system turn plus the whole history,
   remember its answer at `replied`, and return the answer; if the backend
   raises, return the fixed error text and remember nothing more.
   */
  function AskModel(store: Store, received: int, replied: int, phone: string, message: string,
                    backend: Backend): (r: Answer)
    ensures r.request == [Turn(System, SystemPrompt)] + Read(store, received, Key(phone)) + Said(User, message)
    ensures r.store - {Key(phone)} == store - {Key(phone)}
    ensures !backend(r.request).Answered? ==>
      Read(r.store, received, Key(phone)) == Read(store, received, Key(phone)) + Said(User, message)
    ensures backend(r.request).Raised? ==> r.reply == Some(InternalError)
    ensures backend(r.request).NoContent? ==> r.reply == None
    ensures backend(r.request).Answered? ==> r.reply == Some(backend(r.request).text)
  {
    var asked := Memory(store, received, phone, Some(message), User);
    var request := Request(asked.history);
    match backend(request)
    case Raised =>
      Answer(asked.store, Some(InternalError), request)
    case NoContent =>
      var kept := Memory(asked.store, replied, phone, None, Assistant);
      Answer(kept.store, None, request)
    case Answered(text) =>
      var kept := Memory(asked.store, replied, phone, Some(text), Assistant);
      Answer(kept.store, Some(text), request)
  }

  /**
   A successful exchange grows the conversation by exactly the user's turn and
   then the assistant's, provided the answer arrives within the expiry window
   opened by the user's turn; the key's deadline is then `replied + Ttl`.
   */
  lemma AskModelRecordsExchange(store: Store, received: int, replied: int, phone: string, message: string,
                                backend: Backend)
    requires message != "" && replied <= received + Ttl
    requires var r := AskModel(store, received, replied, phone, message, backend);
             backend(r.request).Answered? && backend(r.request).text != ""
    ensures var r := AskModel(store, received, replied, phone, message, backend);
      && Read(r.store, replied, Key(phone))
         == Read(store, received, Key(phone)) + [Turn(User, message), Turn(Assistant, r.reply.value)]
      && Key(phone) in r.store && r.store[Key(phone)].deadline == replied + Ttl
  {
    var r := AskModel(store, received, replied, phone, message, backend);
    var ws := [Write(received, User, message), Write(replied, Assistant, r.reply.value)];
    AskModelIsTwoWrites(store, received, replied, phone, message, backend);
    assert Timely(ws);
    ReplayAppends(store, phone, ws);
    assert TurnsOf(ws) == [Turn(User, message), Turn(Assistant, r.reply.value)] by {
      assert ws[1..][1..] == [];
    }
    assert Read(r.store, replied, Key(phone))
        == Read(store, received, Key(phone)) + [Turn(User, message), Turn(Assistant, r.reply.value)];
  }

  /**
   The turn step is exactly the memory's two writes, the user's turn and then
   the answer; `AskModelRecordsExchange` follows from this and `ReplayAppends`.
   */
  lemma AskModelIsTwoWrites(store: Store, received: int, replied: int, phone: string, message: string,
                            backend: Backend)
    requires var r := AskModel(store, received, replied, phone, message, backend);
             backend(r.request).Answered?
    ensures var r := AskModel(store, received, replied, phone, message, backend);
      r.store == Replay(store, phone, [Write(received, User, message), Write(replied, Assistant, r.reply.value)])
  {
    var r := AskModel(store, received, replied, phone, message, backend);
    var ws := [Write(received, User, message), Write(replied, Assistant, r.reply.value)];
    var asked := Memory(store, received, phone, Some(message), User);
    assert Replay(store, phone, ws) == Replay(asked.store, phone, ws[1..]);
    assert ws[1..][1..] == [];
    assert Replay(asked.store, phone, ws[1..])
        == Memory(asked.store, replied, phone, Some(r.reply.value), Assistant).store;
  }

  /**
   A backend slower than the expiry window finds the user's turn gone: the
   answer is written into a fresh conversation of its own.
   */
  lemma AskModelSlowBackend(store: Store, received: int, replied: int, phone: string, message: string,
                            backend: Backend)
    requires message != "" && replied > received + Ttl
    requires var r := AskModel(store, received, replied, phone, message, backend);
             backend(r.request).Answered? && backend(r.request).text != ""
    ensures var r := AskModel(store, received, replied, phone, message, backend);
      Read(r.store, replied, Key(phone)) == [Turn(Assistant, r.reply.value)]
  {
  }

  /** The outcome of one webhook call: the store afterwards, the reply, and the backend request if one was made. */
  datatype Handled = Handled(store: Store, reply: string, request: Option<seq<Turn>>)

  /** The stripped body, lower-cased, is the reset command. */
  predicate IsReset(body: string) {
    Lower(Strip(body)) == ResetCommand
  }

  /** `if not resposta`: a missing or empty answer is replaced by the instability notice. */
  function OrFallback(answer: Option<string>): (text: string)
    ensures text != ""
    ensures answer.Some? && answer.value != "" ==> text == answer.value
    ensures answer.None? || answer.value == "" ==> text == Instability
  {
    if answer.None? || answer.value == "" then Instability else answer.value
  }

  /**
   The `/bot` webhook on a message `body` from `sender`: a stripped body that
   lower-cases to `/reset` deletes the conversation and is acknowledged without
   asking the backend; anything else goes through the turn step and the reply,
   or the fallback text, is cut to `ReplyLimit` characters.
   */
  function HandleWebhook(store: Store, received: int, replied: int, body: string, sender: string,
                         backend: Backend): (r: Handled)
    ensures 0 < |r.reply| <= ReplyLimit
    ensures r.request.None? <==> IsReset(body)
    ensures IsReset(body) ==> r.reply == ResetAck && Key(sender) !in r.store
    ensures r.store - {Key(sender)} == store - {Key(sender)}
    ensures !IsReset(body) ==>
      var a := AskModel(store, received, replied, sender, Strip(body), backend);
      && r.store == a.store
      && r.request == Some(a.request)
      && r.reply <= OrFallback(a.reply)
      && |r.reply| == if |OrFallback(a.reply)| < ReplyLimit then |OrFallback(a.reply)| else ReplyLimit
  {
    var message := Strip(body);
    if Lower(message) == ResetCommand then
      Handled(Delete(store, Key(sender)), ResetAck, None)
    else
      var a := AskModel(store, received, replied, sender, message, backend);
      Handled(a.store, Prefix(OrFallback(a.reply), ReplyLimit), Some(a.request))
  }

  /** The reset command is recognised whatever the case of its letters and whatever whitespace surrounds it. */
  lemma ResetSpellings(body: string)
    ensures IsReset(body) <==>
      var m := Strip(body);
      && |m| == 6 && m[0] == '/'
      && (m[1] == 'r' || m[1] == 'R') && (m[2] == 'e' || m[2] == 'E') && (m[3] == 's' || m[3] == 'S')
      && (m[4] == 'e' || m[4] == 'E') && (m[5] == 't' || m[5] == 'T')
  {
  }

  /**
   A reset never reaches the backend: whatever backend is plugged in, the
   outcome is the same, and the sender's next message starts from no history.
   */
  lemma ResetBypassesBackend(store: Store, received: int, replied: int, body: string, sender: string,
                             b1: Backend, b2: Backend, later: int)
    requires IsReset(body)
    ensures HandleWebhook(store, received, replied, body, sender, b1)
         == HandleWebhook(store, received, replied, body, sender, b2)
    ensures Read(HandleWebhook(store, received, replied, body, sender, b1).store, later, Key(sender)) == []
  {
  }

  /**
   A failing backend: the user sees the fixed error text, and the user's turn
   stays in the conversation for the next message, with no assistant turn.
   */
  lemma BackendFailureKeepsUserTurn(store: Store, received: int, replied: int, body: string, sender: string,
                                    backend: Backend)
    requires !IsReset(body) && Strip(body) != ""
    requires forall request :: backend(request) == Raised
    ensures var r := HandleWebhook(store, received, replied, body, sender, backend);
      && r.reply == InternalError
      && Read(r.store, received, Key(sender)) == Read(store, received, Key(sender)) + [Turn(User, Strip(body))]
  {
  }

  /**
   A backend that answers with no content leaves the user with the instability
   notice, not an empty message.
   */
  lemma NoContentGetsFallback(store: Store, received: int, replied: int, body: string, sender: string,
                              backend: Backend)
    requires !IsReset(body)
    requires forall request :: backend(request) == NoContent
    ensures HandleWebhook(store, received, replied, body, sender, backend).reply == Instability
  {
  }

  /**
   An empty (or all-whitespace) body is not a reset: the backend is still asked,
   with the stored history unchanged and no new user turn.
   */
  lemma EmptyBodyAsksWithoutUserTurn(store: Store, received: int, replied: int, body: string, sender: string,
                                     backend: Backend)
    requires AllSpace(body)
    ensures var r := HandleWebhook(store, received, replied, body, sender, backend);
      r.request == Some([Turn(System, SystemPrompt)] + Read(store, received, Key(sender)))
  {
  }
}
