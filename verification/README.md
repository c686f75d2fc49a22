# WhatsApp pizzeria bot: conversation memory and message handling

A Dafny model of the logic in `bot.py` of a WhatsApp ordering bot. Three pieces
are modelled:

- **Conversation memory** (`gerenciar_memoria`). Each conversation is kept in a key/value
  store with expiry. The key is `"chat:" + phone`. A missing or expired key reads as an
  empty history. A non-empty message is appended as a `{role, content}` turn, and every
  write resets the key's expiry to 3600 seconds.
- **Turn step** (`obter_resposta_ia`). It appends the user's turn. It then asks the
  generative backend with one system turn followed by the whole history. On an answer it
  appends the assistant's turn. If the backend raises, it returns a fixed error text.
- **Webhook decision** (`bot`). The body is stripped. A case-insensitive `/reset` deletes
  the conversation and short-circuits. An empty answer is replaced by a fallback text.
  The reply is cut to 1500 characters.

Files:

- `wrappers.dfy`: `Option`, standing in for Python's `None`.
- `text.dfy`: `str.strip()`, lower-casing, and the slice `s[:n]`.
- `session.dfy`: the store, the memory operation, deletion, and runs of writes.
- `dialogue.dfy`: the turn step and the webhook.

Modelling choices:

- The Redis store is an explicit `map<string, Entry>`. An `Entry` holds the turns and the
  deadline `write time + 3600`.
- A key is readable up to and including its deadline and gone after it. This matches
  Redis, which treats a key as expired only once the clock is past its expiry instant.
- Time is an explicit integer argument, in seconds. The turn step takes two instants:
  `received`, when the user's turn is written, and `replied`, when the backend's answer
  is written. They differ by however long the backend takes.
- The Groq backend is a total function from the message list it is sent to a
  `Completion`. There are three outcomes:
  - `Answered(text)`: the first choice's content is a string, possibly empty.
  - `NoContent`: that content is `None`.
  - `Raised`: the call raised.

  Because the backend is a function of the request, "the reset never calls the backend"
  can be stated. It is stated as: the outcome is the same for every backend, and no
  request is recorded.
- Turns are stored as a sequence of `Turn(role, content)`, not as JSON text.

Behaviour of bot.py the model keeps:

- A body that is empty after stripping is not a reset. The backend is still called, but
  no user turn is appended, because an empty message is falsy at bot.py:124. See
  `Dialogue.EmptyBodyAsksWithoutUserTurn`.
- If the backend takes longer than the expiry window, the user's turn has expired by the
  time the answer is written. The answer then starts a fresh conversation of its own.
  See `Dialogue.AskModelSlowBackend`.
- The model takes one message at a time. In bot.py, Flask may serve overlapping
  requests for one phone, and because the memory is read-modify-write, one of
  them can lose a turn (see Left out).

## Model

| member | source | states |
|---|---|---|
| Session.Memory | bot.py:105-130 | Without a non-empty message, the store is untouched and the stored history comes back. An absent or expired key gives the empty history. With a message, the result is the previous history plus exactly one `{role, content}` turn at the end. That history is stored under `"chat:" + phone` with deadline `now + 3600`. No other key changes. |
| Session.KeyInjective | bot.py:111 | Two phones share a store key exactly when they are equal. |
| Session.MemoryReadsBack | bot.py:114-128 | After a write at `now`, the deadline is `now + 3600`, whatever it was before (sliding expiry). The written history reads back at every instant up to the deadline, and as empty after it. |
| Session.MemoryIsolated | bot.py:111-128 | A memory call for one phone does not change what any other phone's key reads, at any instant. |
| Session.Delete | bot.py:166 | Deletion removes the key and keeps every other key and value. |
| Session.DeleteForgets | bot.py:166 | After deletion the phone's memory reads as empty. Deleting twice is the same as deleting once. |
| Session.ReplayAppends | bot.py:124-128 | Take a run of non-empty writes to one conversation, each within the expiry window of the previous one. It leaves the earlier history followed by the written turns, in call order. The deadline is set by the last write alone. This is append-only growth. |
| Text.Strip | bot.py:161 | The stripped body is a slice of the body. Only whitespace lies before and after it. It neither starts nor ends with whitespace. It is empty exactly when the body is all whitespace. |
| Text.SplitUnique | bot.py:161 | There is at most one way to split a string into whitespace, a trimmed core and whitespace. So the strip is uniquely determined. |
| Text.StripUnique | bot.py:161 | Any whitespace, then a trimmed core, then whitespace strips to exactly that core. |
| Text.StripIdempotent | bot.py:161 | Stripping twice is the same as stripping once. |
| Text.Lower | bot.py:165 | Lower-casing keeps the length and maps each ASCII capital to its small letter, leaving every other character as it is. |
| Text.Prefix | bot.py:180 | `s[:n]` is a prefix of `s` of length `min(n, len(s))`. |
| Dialogue.AskModel | bot.py:132-158 | The backend request is the system prompt turn followed by the history as read before the call, plus the user's turn when the message is non-empty. Only the conversation's own key changes. On failure the reply is the fixed error text. On no content it is `None`. In both cases the user's turn stays and no assistant turn is added. On an answer, the reply is that answer's text. |
| Dialogue.AskModelRecordsExchange | bot.py:132-154 | Suppose the message and the answer are both non-empty, and the answer comes within the expiry window. Then the conversation grows by exactly the user's turn and then the assistant's turn with the returned text. The deadline becomes `replied + 3600`. |
| Dialogue.AskModelIsTwoWrites | bot.py:135-152 | When the backend answers, the turn step's store equals two memory writes: the user's turn at `received`, then the answer at `replied`. |
| Dialogue.AskModelSlowBackend | bot.py:135-152 | If the answer comes after the user's turn has expired, the conversation holds only the assistant's turn. |
| Dialogue.OrFallback | bot.py:173-174 | A missing or empty answer becomes "Desculpe, estou com instabilidade agora. Pode repetir?". Any other answer is kept. The result is never empty. |
| Dialogue.NoContentGetsFallback | bot.py:171-180 | When the backend answers with no content on a non-reset message, the reply is the instability notice. |
| Dialogue.HandleWebhook | bot.py:160-184 | The reply is non-empty and at most 1500 characters. A backend request is made exactly when the stripped, lower-cased body is not `/reset`. A reset replies with the acknowledgment and removes the sender's key. Otherwise the store is the turn step's store. The reply is the first `min(len, 1500)` characters of the answer, or of the fallback text. No key but the sender's changes. |
| Dialogue.ResetSpellings | bot.py:161-165 | The body is a reset exactly when its stripped form is `/` followed by `reset` in any mix of upper and lower case. |
| Dialogue.ResetBypassesBackend | bot.py:165-169 | On a reset, the outcome is the same whatever backend is plugged in. The sender's memory then reads as empty at every instant. |
| Dialogue.BackendFailureKeepsUserTurn | bot.py:133-158 | When the backend raises on a non-empty, non-reset message, the user sees "Desculpe, tivemos um erro interno.". The user's turn is the last turn kept, and no assistant turn follows it. |
| Dialogue.EmptyBodyAsksWithoutUserTurn | bot.py:161-171 | An all-whitespace body still reaches the backend. The request holds the stored history unchanged, with no new user turn. |

## Left out

- Flask routing, form parsing and the Twilio XML envelope (bot.py:159-162, 176-184). These are transport. The body and sender are plain strings, and the reply is a string.
- The Groq call's model name and temperature (bot.py:143-149). These are foreign-call configuration and a float. The backend is an opaque function returning `Answered`, `NoContent` or `Raised`.
- Redis connection setup, ping and printing (bot.py:20-29). These are library I/O. The store is an explicit map.
- JSON serialisation of the history (bot.py:118, 128). This is a library round trip. Turns are stored directly.
- Exceptions from the store itself: a failing `db.get`/`db.set`, or undecodable JSON. In bot.py these happen inside the `try` of bot.py:133 and end in the fixed error text. Only backend exceptions are modelled.
- A failing `db.delete` on the reset path (bot.py:166). It is outside any `try`, so in bot.py the request ends without a reply; `Dialogue.HandleWebhook` assumes the delete succeeds and always acknowledges.
- Environment loading and the startup `ValueError` (bot.py:9, 14-18, 186-188). This is process setup.
- The menu and prompt text (bot.py:32-103). It is an opaque constant string, `Dialogue.SystemPrompt`.
- The read-modify-write race between concurrent requests for one phone (bot.py:114-128). It is about concurrency. Requests are modelled one at a time.
- Text.Lower: lower-cases ASCII capitals only. Python's `str.lower()` also maps non-ASCII letters. No non-ASCII character lower-cases to a single `/`, `r`, `e`, `s` or `t`, so the comparison with `/reset` is unaffected.
