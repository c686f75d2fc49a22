/**
 The per-conversation memory of `gerenciar_memoria` (bot.py:105-130): a key/value
 store with expiry, keyed by `"chat:" + phone`, holding the ordered list of
 `{role, content}` turns of one conversation. The store is an explicit map from
 key to (turns, deadline); time is an explicit argument in seconds.
 */
module Session {
  import opened Wrappers

  datatype Role = System | User | Assistant

  /** One `{role, content}` utterance. */
  datatype Turn = Turn(role: Role, content: string)

  /** A stored history and the instant after which the store forgets it. */
  datatype Entry = Entry(turns: seq<Turn>, deadline: int)

  type Store = map<string, Entry>

  /** Expiry window, in seconds, set on every write (`ex=3600`). */
  const Ttl: int := 3600

  const KeyPrefix: string := "chat:"

  /** The store key of a conversation. */
  function Key(phone: string): string {
    KeyPrefix + phone
  }

  /** Distinct phones never share a store key. */
  lemma KeyInjective(p: string, q: string)
    ensures Key(p) == Key(q) <==> p == q
  {
    if Key(p) == Key(q) {
      assert p == Key(p)[|KeyPrefix|..];
      assert q == Key(q)[|KeyPrefix|..];
    }
  }

  /**
   The key is still held at time `now`: a key written with deadline `d` is
   readable up to and including `d` and gone afterwards.
   */
  predicate Live(store: Store, now: int, key: string) {
    key in store && now <= store[key].deadline
  }

  /** `db.get` followed by decoding: an absent or expired key reads as no turns. */
  function Read(store: Store, now: int, key: string): seq<Turn> {
    if Live(store, now, key) then store[key].turns else []
  }

  /** Python truthiness of the optional message: `None` and `""` are both false. */
  predicate HasText(message: Option<string>) {
    message.Some? && message.value != ""
  }

  /** What a call to the memory leaves behind and hands back. */
  datatype Recall = Recall(store: Store, history: seq<Turn>)

  /**
   `gerenciar_memoria(phone, message, role)` at time `now`: read the history;
   when the message is non-empty, append it as a `role` turn and write the
   whole history back with a fresh expiry; return the history.
   */
  function Memory(store: Store, now: int, phone: string, message: Option<string>, role: Role): (r: Recall)
    ensures !HasText(message) ==> r.store == store && r.history == Read(store, now, Key(phone))
    ensures HasText(message) ==> r.history == Read(store, now, Key(phone)) + [Turn(role, message.value)]
    ensures HasText(message) ==> Key(phone) in r.store && r.store[Key(phone)] == Entry(r.history, now + Ttl)
    ensures r.store - {Key(phone)} == store - {Key(phone)}
  {
    var key := Key(phone);
    var history := Read(store, now, key);
    if HasText(message) then
      var appended := history + [Turn(role, message.value)];
      Recall(store[key := Entry(appended, now + Ttl)], appended)
    else
      Recall(store, history)
  }

  /** `db.delete(key)`: the key is gone, every other key is untouched. */
  function Delete(store: Store, key: string): (r: Store)
    ensures key !in r
    ensures forall k :: k != key ==> (k in r <==> k in store)
    ensures forall k :: k in r ==> r[k] == store[k]
  {
    store - {key}
  }

  /**
   Sliding expiry: after a write at `now` the history reads back unchanged at
   every instant up to `now + Ttl`, and as empty after it, whatever deadline the
   key had before.
   */
  lemma MemoryReadsBack(store: Store, now: int, phone: string, message: Option<string>, role: Role, later: int)
    requires HasText(message)
    ensures var r := Memory(store, now, phone, message, role);
      && r.store[Key(phone)].deadline == now + Ttl
      && (later <= now + Ttl ==> Read(r.store, later, Key(phone)) == r.history)
      && (later > now + Ttl ==> Read(r.store, later, Key(phone)) == [])
  {
  }

  /** The memory of one phone never disturbs the memory of another. */
  lemma MemoryIsolated(store: Store, now: int, phone: string, message: Option<string>, role: Role,
                       other: string, later: int)
    requires other != phone
    ensures Read(Memory(store, now, phone, message, role).store, later, Key(other)) == Read(store, later, Key(other))
  {
    KeyInjective(phone, other);
  }

  /** Deleting a key makes its memory empty at every instant; deleting twice is deleting once. */
  lemma DeleteForgets(store: Store, phone: string, now: int)
    ensures Memory(Delete(store, Key(phone)), now, phone, None, User).history == []
    ensures Delete(Delete(store, Key(phone)), Key(phone)) == Delete(store, Key(phone))
  {
  }

  /** One write in a sequence of writes to the same conversation. */
  datatype Write = Write(at: int, role: Role, content: string)

  /** The turns a sequence of writes contributes, in call order. */
  function TurnsOf(ws: seq<Write>): seq<Turn> {
    if ws == [] then [] else [Turn(ws[0].role, ws[0].content)] + TurnsOf(ws[1..])
  }

  /** Successive memory calls for one phone, oldest first. */
  function Replay(store: Store, phone: string, ws: seq<Write>): Store
    decreases |ws|
  {
    if ws == [] then store
    else Replay(Memory(store, ws[0].at, phone, Some(ws[0].content), ws[0].role).store, phone, ws[1..])
  }

  /**
   Each write lands before the previous one's deadline, and carries text.
   */
  ghost predicate Timely(ws: seq<Write>) {
    && (forall i :: 0 <= i < |ws| ==> ws[i].content != "")
    && (forall i, j :: 0 <= i < j < |ws| && j == i + 1 ==> ws[j].at <= ws[i].at + Ttl)
  }

  lemma TimelyTail(ws: seq<Write>)
    requires |ws| > 0 && Timely(ws)
    ensures Timely(ws[1..])
  {
  }

  /**
   The first write of a timely run: the replay continues from the store it
   leaves, and the second write reads back the history it produced.
   */
  lemma ReplayFirst(store: Store, phone: string, ws: seq<Write>)
    requires |ws| > 1 && Timely(ws)
    ensures var first := Memory(store, ws[0].at, phone, Some(ws[0].content), ws[0].role).store;
      && Replay(store, phone, ws) == Replay(first, phone, ws[1..])
      && Read(first, ws[1].at, Key(phone)) == Read(store, ws[0].at, Key(phone)) + [Turn(ws[0].role, ws[0].content)]
  {
  }

  /**
   Append-only growth: a run of non-empty writes, each within the expiry window
   of the one before, leaves exactly the earlier history followed by the written
   turns in call order, with the deadline set by the last write alone.
   */
  lemma {:induction false} ReplayAppends(store: Store, phone: string, ws: seq<Write>)
    requires |ws| > 0 && Timely(ws)
    decreases |ws|
    ensures Read(Replay(store, phone, ws), ws[|ws| - 1].at, Key(phone))
            == Read(store, ws[0].at, Key(phone)) + TurnsOf(ws)
    ensures Key(phone) in Replay(store, phone, ws)
    ensures Replay(store, phone, ws)[Key(phone)].deadline == ws[|ws| - 1].at + Ttl
  {
    var t := Turn(ws[0].role, ws[0].content);
    if |ws| == 1 {
      assert TurnsOf(ws) == [t];
    } else {
      var first := Memory(store, ws[0].at, phone, Some(ws[0].content), ws[0].role).store;
      var rest := ws[1..];
      var before := Read(store, ws[0].at, Key(phone));
      ReplayFirst(store, phone, ws);
      TimelyTail(ws);
      ReplayAppends(first, phone, rest);
      assert rest[0] == ws[1] && rest[|rest| - 1] == ws[|ws| - 1];
      assert TurnsOf(ws) == [t] + TurnsOf(rest);
      assert (before + [t]) + TurnsOf(rest) == before + TurnsOf(ws);
    }
  }
}
