/**
 * `routes/chat.route.js`: `POST /` (find-or-create the user's conversation, push the user's
 * message and the AI's reply, save, answer with both texts) and `GET /history`.
 * Both run behind the auth middleware.
 */
module ChatRoute {
  import opened Common
  import opened ChatModel
  import opened Http
  import opened AiService
  import Jwt
  import AuthMiddleware

  const SendFailed := Response(500, ErrorMessage("Server error while sending message"))
  const HistoryFailed := Response(500, ErrorMessage("Server error while fetching chat history"))

  /** The collection after a POST, and the response sent. */
  datatype PostResult = PostResult(chats: map<UserId, Conversation>, response: Response)

  /**
   * What one POST by `userId` does to the collection. `dbUp` says whether the database
   * answers this request's `findOne`/`save`.
   */
  function PostEffect(chats: map<UserId, Conversation>, userId: UserId, text: string,
                      gemini: Gemini, dbUp: bool): (r: PostResult)
    requires StoreInvariant(chats)
    ensures StoreInvariant(r.chats)
    ensures r.response.status == 200 <==> dbUp && text != ""
    ensures r.response.status == 200 ==>
              var reply := GenerateReply(gemini, text);
              && r.chats == AfterTurn(chats, userId, text, reply)
              && r.response.body == Sent(text, reply)
    ensures r.response.status != 200 ==> r.chats == chats && r.response == SendFailed
  {
    if !dbUp then PostResult(chats, SendFailed)
    else
      var reply := GenerateReply(gemini, text);
      var chat := Conversation(userId, MessagesOf(chats, userId) + Turn(text, reply));
      AfterTurnKeepsInvariant(chats, userId, text, reply);
      if ValidConversation(chat) then PostResult(chats[userId := chat], Response(200, Sent(text, reply)))
      else PostResult(chats, SendFailed)
  }

  /** The POST handler body, run once the middleware has set `req.user.id` to `userId`. */
  method PostMessage(store: ChatCollection, userId: UserId, text: string, gemini: Gemini, dbUp: bool)
    returns (r: Response)
    requires store.Valid()
    modifies store
    ensures store.Valid()
    ensures PostResult(store.chats, r) == PostEffect(old(store.chats), userId, text, gemini, dbUp)
  {
    if !dbUp {
      return SendFailed;
    }
    var found := store.FindOne(userId);
    var chat := if found.Some? then found.value else Conversation(userId, []);
    chat := chat.(messages := chat.messages + [Message(User, text)]);
    var aiReply := GenerateReply(gemini, text);
    chat := chat.(messages := chat.messages + [Message(Ai, aiReply)]);
    assert chat.messages == MessagesOf(old(store.chats), userId) + Turn(text, aiReply);
    var saved := store.Save(chat);
    if !saved {
      return SendFailed;
    }
    r := Response(200, Sent(text, aiReply));
  }

  /** `router.post("/", authMiddleware, ...)`: a refused token answers 401 and touches nothing. */
  method PostRoute(store: ChatCollection, header: Option<string>, verify: Jwt.Verifier,
                   text: string, gemini: Gemini, dbUp: bool) returns (r: Response)
    requires store.Valid()
    modifies store
    ensures store.Valid()
    ensures match AuthMiddleware.Authenticate(header, verify)
            case Denied(refusal) => r == refusal && store.chats == old(store.chats)
            case Next(id) => PostResult(store.chats, r) == PostEffect(old(store.chats), id, text, gemini, dbUp)
  {
    var gate := AuthMiddleware.Authenticate(header, verify);
    match gate
    case Denied(refusal) => r := refusal;
    case Next(id) => r := PostMessage(store, id, text, gemini, dbUp);
  }

  /** `GET /history` for `userId`: the stored messages in order, `[]` for a user without a conversation. */
  function HistoryOf(chats: map<UserId, Conversation>, userId: UserId, dbUp: bool): (r: Response)
    ensures !dbUp ==> r == HistoryFailed
    ensures dbUp && userId !in chats ==> r == Response(200, History([]))
    ensures dbUp && userId in chats ==> r == Response(200, History(chats[userId].messages))
  {
    if !dbUp then HistoryFailed
    else if userId !in chats then Response(200, History([]))
    else Response(200, History(chats[userId].messages))
  }

  /** `router.get("/history", authMiddleware, ...)`; a read, so the collection is never changed. */
  function HistoryRoute(chats: map<UserId, Conversation>, header: Option<string>,
                        verify: Jwt.Verifier, dbUp: bool): (r: Response)
    ensures match AuthMiddleware.Authenticate(header, verify)
            case Denied(refusal) => r == refusal
            case Next(id) => r == HistoryOf(chats, id, dbUp)
  {
    match AuthMiddleware.Authenticate(header, verify)
    case Denied(refusal) => refusal
    case Next(id) => HistoryOf(chats, id, dbUp)
  }

  /**
   * The turns that successive POSTs of `texts` append, in order; the k-th POST is answered by
   * the Gemini service as it behaves at that call, `geminis[k]`.
   */
  function Turns(texts: seq<string>, geminis: seq<Gemini>): seq<Message>
    requires |geminis| == |texts|
  {
    if |texts| == 0 then []
    else
      var n := |texts| - 1;
      Turns(texts[..n], geminis[..n]) + Turn(texts[n], GenerateReply(geminis[n], texts[n]))
  }

  /** The collection after `userId` POSTs each of `texts` in turn, the database answering. */
  function Replay(chats: map<UserId, Conversation>, userId: UserId, texts: seq<string>, geminis: seq<Gemini>)
    : (r: map<UserId, Conversation>)
    requires StoreInvariant(chats) && |geminis| == |texts|
    ensures StoreInvariant(r)
  {
    if |texts| == 0 then chats
    else
      var n := |texts| - 1;
      PostEffect(Replay(chats, userId, texts[..n], geminis[..n]), userId, texts[n], geminis[n], true).chats
  }

  /** Two messages per text, the user's at even and the AI's at odd positions. */
  lemma {:induction false} TurnsLayout(texts: seq<string>, geminis: seq<Gemini>)
    requires |geminis| == |texts|
    ensures |Turns(texts, geminis)| == 2 * |texts|
    ensures forall k :: 0 <= k < |texts| ==>
              Turns(texts, geminis)[2 * k] == Message(User, texts[k])
              && Turns(texts, geminis)[2 * k + 1] == Message(Ai, GenerateReply(geminis[k], texts[k]))
    ensures forall i :: 0 <= i < |Turns(texts, geminis)| ==>
              Turns(texts, geminis)[i].sender == if i % 2 == 0 then User else Ai
  {
    if |texts| > 0 {
      var n := |texts| - 1;
      var init, ginit := texts[..n], geminis[..n];
      TurnsLayout(init, ginit);
      var ts := Turns(texts, geminis);
      assert ts == Turns(init, ginit) + Turn(texts[n], GenerateReply(geminis[n], texts[n]));
      forall k | 0 <= k < |texts|
        ensures ts[2 * k] == Message(User, texts[k])
        ensures ts[2 * k + 1] == Message(Ai, GenerateReply(geminis[k], texts[k]))
      {
        if k < n { assert texts[k] == init[k] && geminis[k] == ginit[k]; }
      }
      forall i | 0 <= i < |ts| ensures ts[i].sender == if i % 2 == 0 then User else Ai {
        if i < 2 * n {
          assert ts[i] == Turns(init, ginit)[i];
        }
      }
    }
  }

  /** The last of several POSTs with a non-empty text is one more turn on what the others left. */
  lemma ReplayStep(chats: map<UserId, Conversation>, userId: UserId, texts: seq<string>, geminis: seq<Gemini>)
    requires StoreInvariant(chats) && |geminis| == |texts| && |texts| > 0 && texts[|texts| - 1] != ""
    ensures var n := |texts| - 1;
            Replay(chats, userId, texts, geminis)
            == AfterTurn(Replay(chats, userId, texts[..n], geminis[..n]), userId, texts[n], GenerateReply(geminis[n], texts[n]))
    ensures var n := |texts| - 1;
            && MessagesOf(Replay(chats, userId, texts, geminis), userId)
               == MessagesOf(Replay(chats, userId, texts[..n], geminis[..n]), userId)
                  + Turn(texts[n], GenerateReply(geminis[n], texts[n]))
            && Turns(texts, geminis) == Turns(texts[..n], geminis[..n]) + Turn(texts[n], GenerateReply(geminis[n], texts[n]))
  {
    var n := |texts| - 1;
    var step := PostEffect(Replay(chats, userId, texts[..n], geminis[..n]), userId, texts[n], geminis[n], true);
    assert step.response.status == 200;
  }

  /** Successful POSTs by `userId` leave every other user's conversation as it was. */
  lemma {:induction false} ReplayKeepsOthers(chats: map<UserId, Conversation>, userId: UserId,
                                             texts: seq<string>, geminis: seq<Gemini>, v: UserId)
    requires StoreInvariant(chats) && |geminis| == |texts| && v != userId
    requires forall k :: 0 <= k < |texts| ==> texts[k] != ""
    ensures MessagesOf(Replay(chats, userId, texts, geminis), v) == MessagesOf(chats, v)
  {
    if |texts| > 0 {
      var n := |texts| - 1;
      ReplayKeepsOthers(chats, userId, texts[..n], geminis[..n], v);
      ReplayStep(chats, userId, texts, geminis);
    }
  }

  /** Concatenation regroups; stated once so the induction below need not search for it. */
  lemma AppendAssoc(a: seq<Message>, b: seq<Message>, c: seq<Message>)
    ensures (a + b) + c == a + (b + c)
  {
  }

  /** Successful POSTs by `userId` append their turns to that user's messages, in call order. */
  lemma {:induction false} ReplayExtendsOwn(chats: map<UserId, Conversation>, userId: UserId,
                                            texts: seq<string>, geminis: seq<Gemini>)
    requires StoreInvariant(chats) && |geminis| == |texts|
    requires "" !in texts
    ensures MessagesOf(Replay(chats, userId, texts, geminis), userId)
            == MessagesOf(chats, userId) + Turns(texts, geminis)
  {
    if |texts| > 0 {
      var n := |texts| - 1;
      var init, ginit := texts[..n], geminis[..n];
      var turn := Turn(texts[n], GenerateReply(geminis[n], texts[n]));
      ReplayExtendsOwn(chats, userId, init, ginit);
      ReplayStep(chats, userId, texts, geminis);
      AppendAssoc(MessagesOf(chats, userId), Turns(init, ginit), turn);
    }
  }

  /**
   * Successful POSTs append their turns to whatever was stored, in call order, and leave
   * every other user's conversation as it was.
   */
  lemma ReplayAppends(chats: map<UserId, Conversation>, userId: UserId,
                      texts: seq<string>, geminis: seq<Gemini>)
    requires StoreInvariant(chats) && |geminis| == |texts|
    requires forall k :: 0 <= k < |texts| ==> texts[k] != ""
    ensures MessagesOf(Replay(chats, userId, texts, geminis), userId)
            == MessagesOf(chats, userId) + Turns(texts, geminis)
    ensures forall v :: v != userId ==> MessagesOf(Replay(chats, userId, texts, geminis), v) == MessagesOf(chats, v)
  {
    ReplayExtendsOwn(chats, userId, texts, geminis);
    forall v | v != userId
      ensures MessagesOf(Replay(chats, userId, texts, geminis), v) == MessagesOf(chats, v)
    {
      ReplayKeepsOthers(chats, userId, texts, geminis, v);
    }
  }

  /**
   * After N successful POSTs by a user who had no conversation, history answers 2N messages:
   * each text at an even position, the reply to it right after it.
   */
  lemma FreshUserHistory(chats: map<UserId, Conversation>, userId: UserId, texts: seq<string>,
                         geminis: seq<Gemini>)
    requires StoreInvariant(chats) && userId !in chats && |geminis| == |texts|
    requires forall k :: 0 <= k < |texts| ==> texts[k] != ""
    ensures var h := HistoryOf(Replay(chats, userId, texts, geminis), userId, true);
            && h.status == 200 && h.body.History?
            && |h.body.messages| == 2 * |texts|
            && (forall k :: 0 <= k < |texts| ==>
                  h.body.messages[2 * k] == Message(User, texts[k])
                  && h.body.messages[2 * k + 1] == Message(Ai, GenerateReply(geminis[k], texts[k])))
            && (forall i :: 0 <= i < |h.body.messages| ==>
                  h.body.messages[i].sender == if i % 2 == 0 then User else Ai)
  {
    ReplayAppends(chats, userId, texts, geminis);
    TurnsLayout(texts, geminis);
    var after := Replay(chats, userId, texts, geminis);
    assert MessagesOf(after, userId) == Turns(texts, geminis);
    assert HistoryOf(after, userId, true).body.messages == MessagesOf(after, userId);
  }

  /** A POST by a user without a conversation creates one whose messages are exactly the new turn. */
  lemma FirstPostCreates(chats: map<UserId, Conversation>, userId: UserId, text: string, gemini: Gemini)
    requires StoreInvariant(chats) && userId !in chats && text != ""
    ensures var r := PostEffect(chats, userId, text, gemini, true);
            && userId in r.chats && r.chats[userId].userId == userId
            && r.chats[userId].messages == Turn(text, GenerateReply(gemini, text))
  {
  }
}
