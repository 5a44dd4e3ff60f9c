/**
 * The `Chat` mongoose model: one conversation document per user, embedding its messages
 * in insertion order. The collection is a map keyed by the owner's id.
 */
module ChatModel {
  import opened Common

  /** The `sender` enum: exactly `'user'` or `'ai'`. */
  datatype Sender = User | Ai

  /** A `messageSchema` subdocument. */
  datatype Message = Message(sender: Sender, text: string)

  /** A `chatSchema` document: a required owner and an ordered list of messages. */
  datatype Conversation = Conversation(userId: UserId, messages: seq<Message>)

  /** What mongoose's `required: true` accepts for a String path: a non-empty string. */
  predicate ValidMessage(m: Message) {
    m.text != ""
  }

  /** The validation `save` runs on a conversation: every embedded message is valid. */
  predicate ValidConversation(c: Conversation) {
    forall k :: 0 <= k < |c.messages| ==> ValidMessage(c.messages[k])
  }

  /** Every stored document sits under its own owner's key and passed validation. */
  predicate StoreInvariant(chats: map<UserId, Conversation>) {
    forall u :: u in chats ==> chats[u].userId == u && ValidConversation(chats[u])
  }

  /** The messages stored for `u`, or none when `u` has no conversation. */
  function MessagesOf(chats: map<UserId, Conversation>, u: UserId): (ms: seq<Message>)
    ensures u !in chats ==> ms == []
    ensures u in chats ==> ms == chats[u].messages
  {
    if u in chats then chats[u].messages else []
  }

  /** One exchange as both chat paths push it: the user's message, then the AI's reply. */
  function Turn(text: string, reply: string): seq<Message> {
    [Message(User, text), Message(Ai, reply)]
  }

  /**
   * The collection after `u`'s conversation (found, or created empty) has had one turn appended
   * and was saved. Only `u`'s entry changes.
   */
  function AfterTurn(chats: map<UserId, Conversation>, u: UserId, text: string, reply: string)
    : (r: map<UserId, Conversation>)
    ensures r.Keys == chats.Keys + {u}
    ensures MessagesOf(r, u) == MessagesOf(chats, u) + Turn(text, reply)
    ensures forall v :: v in chats && v != u ==> r[v] == chats[v]
  {
    chats[u := Conversation(u, MessagesOf(chats, u) + Turn(text, reply))]
  }

  /** Appending a turn keeps the store invariant exactly when both texts are non-empty. */
  lemma AfterTurnKeepsInvariant(chats: map<UserId, Conversation>, u: UserId, text: string, reply: string)
    requires StoreInvariant(chats)
    ensures ValidConversation(Conversation(u, MessagesOf(chats, u) + Turn(text, reply)))
            <==> text != "" && reply != ""
    ensures text != "" && reply != "" ==> StoreInvariant(AfterTurn(chats, u, text, reply))
  {
    var ms := MessagesOf(chats, u) + Turn(text, reply);
    var n := |MessagesOf(chats, u)|;
    assert ms[n] == Message(User, text) && ms[n + 1] == Message(Ai, reply);
    if text != "" && reply != "" {
      forall k | 0 <= k < |ms| ensures ValidMessage(ms[k]) {
        if k < n { assert ms[k] == MessagesOf(chats, u)[k]; }
      }
    }
  }

  /** The chat collection of the database. */
  class ChatCollection {
    var chats: map<UserId, Conversation>

    predicate Valid()
      reads this
    {
      StoreInvariant(chats)
    }

    constructor ()
      ensures Valid() && chats == map[]
    {
      chats := map[];
    }

    /** `Chat.findOne({ userId })`. */
    function FindOne(u: UserId): (r: Option<Conversation>)
      reads this
      ensures r.Some? <==> u in chats
      ensures r.Some? ==> r.value == chats[u]
    {
      if u in chats then Some(chats[u]) else None
    }

    /**
     * `chat.save()`: validation first; a valid document replaces (or inserts) its owner's entry,
     * an invalid one is rejected and nothing is written.
     */
    method Save(c: Conversation) returns (ok: bool)
      requires Valid()
      modifies this
      ensures Valid()
      ensures ok == ValidConversation(c)
      ensures chats == if ok then old(chats)[c.userId := c] else old(chats)
    {
      ok := ValidConversation(c);
      if ok {
        chats := chats[c.userId := c];
      }
    }
  }
}
