/**
 * `server.js`: the allowed-origins list computed from `FRONTEND_URLS`, and the socket
 * `sendMessage` handler, which stores a turn in an existing conversation and broadcasts it.
 */
module Server {
  import opened Common
  import opened Strings
  import opened ChatModel
  import opened AiService
  import Jwt
  import ChatRoute

  const DefaultOrigins := "http://localhost:5173" + "," + "https://vishai.netlify.app" + "," + "https://vish-ai.vercel.app"

  /** `u.replace(/\/$/, '')`: at most one trailing slash goes. */
  function StripTrailingSlash(s: string): string {
    if |s| > 0 && s[|s| - 1] == '/' then s[..|s| - 1] else s
  }

  /** The `.map(...)` step. */
  function CleanOrigin(piece: string): string {
    StripTrailingSlash(Trim(piece))
  }

  /** A cleaned piece is empty or starts with a non-space, and has a comma only if the piece had one. */
  lemma CleanOriginShape(piece: string)
    ensures var c := CleanOrigin(piece);
            (c == [] || !IsJsSpace(c[0])) && (',' !in piece ==> ',' !in c)
  {
    var t := Trim(piece);
    var c := CleanOrigin(piece);
    TrimFacts(piece);
    assert c == t[..|c|];
    if ',' !in piece {
      TrimRemovesOnly(piece, ',');
      assert forall i :: 0 <= i < |c| ==> c[i] == t[i];
    }
  }

  /** `.map(...).filter(Boolean)` over the comma-separated pieces, in order. */
  function CleanAll(pieces: seq<string>): (r: seq<string>)
    ensures forall k :: 0 <= k < |r| ==> r[k] != ""
  {
    if |pieces| == 0 then []
    else
      var rest := CleanAll(pieces[1..]);
      var c := CleanOrigin(pieces[0]);
      if c == "" then rest else [c] + rest
  }

  /** Cleaning comma-free pieces gives comma-free origins that start with a non-space. */
  lemma {:induction false} CleanAllShape(pieces: seq<string>)
    requires forall j :: 0 <= j < |pieces| ==> ',' !in pieces[j]
    ensures forall k :: 0 <= k < |CleanAll(pieces)| ==>
              ',' !in CleanAll(pieces)[k] && !IsJsSpace(CleanAll(pieces)[k][0])
  {
    if |pieces| > 0 {
      CleanAllShape(pieces[1..]);
      CleanOriginShape(pieces[0]);
    }
  }

  /** The pipeline after the fallback: split on commas, clean each piece, drop the empty ones. */
  function Normalise(source: string): (r: seq<string>)
    ensures forall k :: 0 <= k < |r| ==> r[k] != "" && ',' !in r[k] && !IsJsSpace(r[k][0])
  {
    CleanAllShape(Split(source, ','));
    CleanAll(Split(source, ','))
  }

  /** `frontendOrigins`: an unset or empty `FRONTEND_URLS` falls back to the built-in list. */
  function FrontendOrigins(env: Option<string>): (r: seq<string>)
    ensures env.Some? && env.value != "" ==> r == Normalise(env.value)
  {
    match env
    case None => Normalise(DefaultOrigins)
    case Some(v) => if v == "" then Normalise(DefaultOrigins) else Normalise(v)
  }

  /** An origin already in normal form: non-empty, no comma, no surrounding space, no trailing slash. */
  predicate IsCleanOrigin(o: string) {
    o != "" && ',' !in o && !IsJsSpace(o[0]) && !IsJsSpace(o[|o| - 1]) && o[|o| - 1] != '/'
  }

  /** Pieces that each clean to a non-empty origin clean to exactly those origins, in order. */
  lemma {:induction false} CleanAllMatches(pieces: seq<string>, os: seq<string>)
    requires |pieces| == |os|
    requires forall k :: 0 <= k < |os| ==> os[k] != "" && CleanOrigin(pieces[k]) == os[k]
    ensures CleanAll(pieces) == os
  {
    if |os| > 0 {
      CleanAllMatches(pieces[1..], os[1..]);
    }
  }

  /** A piece that cleans to nothing is dropped. */
  lemma CleanAllDropsEmpty(before: seq<string>, piece: string, after: seq<string>)
    requires CleanOrigin(piece) == ""
    ensures CleanAll(before + [piece] + after) == CleanAll(before + after)
    decreases |before|
  {
    if |before| > 0 {
      assert (before + [piece] + after)[1..] == before[1..] + [piece] + after;
      assert (before + after)[1..] == before[1..] + after;
      CleanAllDropsEmpty(before[1..], piece, after);
    } else {
      assert (before + [piece] + after)[1..] == after;
      assert before + after == after;
    }
  }

  /** Surrounding spaces go, and so does one slash before them; a second slash stays. */
  lemma CleanOriginPadded(pre: string, o: string, post: string)
    requires forall i :: 0 <= i < |pre| ==> IsJsSpace(pre[i])
    requires forall i :: 0 <= i < |post| ==> IsJsSpace(post[i])
    requires o != "" && !IsJsSpace(o[0]) && !IsJsSpace(o[|o| - 1])
    ensures o[|o| - 1] != '/' ==> CleanOrigin(pre + o + post) == o
    ensures CleanOrigin(pre + (o + "/") + post) == o
    ensures CleanOrigin(pre + (o + "//") + post) == o + "/"
  {
    TrimPadded(pre, o, post);
    TrimPadded(pre, o + "/", post);
    assert (o + "/")[..|o|] == o;
    TrimPadded(pre, o + "//", post);
    assert (o + "//")[..|o| + 1] == o + "/";
  }

  lemma CleanOriginKeepsClean(o: string)
    requires IsCleanOrigin(o)
    ensures CleanOrigin(o) == o
  {
    TrimFacts(o);
  }

  lemma CleanAllKeepsClean(os: seq<string>)
    requires forall k :: 0 <= k < |os| ==> IsCleanOrigin(os[k])
    ensures CleanAll(os) == os
  {
    forall k | 0 <= k < |os| ensures CleanOrigin(os[k]) == os[k] {
      CleanOriginKeepsClean(os[k]);
    }
    CleanAllMatches(os, os);
  }

  /** Normalising a comma-joined list of clean origins gives back that list, order included. */
  lemma NormaliseRoundTrip(os: seq<string>)
    requires forall k :: 0 <= k < |os| ==> IsCleanOrigin(os[k])
    ensures Normalise(Join(os, ',')) == os
  {
    if |os| == 0 {
      assert Split("", ',') == [""];
      assert CleanOrigin("") == "";
    } else {
      SplitJoin(os, ',');
      CleanAllKeepsClean(os);
    }
  }

  /** Setting `FRONTEND_URLS` to the comma-joined list of clean origins gives back that list. */
  lemma FrontendOriginsRoundTrip(os: seq<string>)
    requires |os| >= 1
    requires forall k :: 0 <= k < |os| ==> IsCleanOrigin(os[k])
    ensures FrontendOrigins(Some(Join(os, ','))) == os
  {
    var v := Join(os, ',');
    JoinFirstNonEmpty(os);
    NormaliseRoundTrip(os);
    assert FrontendOrigins(Some(v)) == Normalise(v);
  }

  lemma JoinFirstNonEmpty(os: seq<string>)
    requires |os| >= 1 && os[0] != ""
    ensures Join(os, ',') != ""
  {
  }

  const BuiltInOrigins := ["http://localhost:5173", "https://vishai.netlify.app", "https://vish-ai.vercel.app"]

  /** Each built-in origin is already clean. */
  lemma BuiltInOriginsClean()
    ensures forall k :: 0 <= k < |BuiltInOrigins| ==> IsCleanOrigin(BuiltInOrigins[k])
  {
    assert IsCleanOrigin("http://localhost:5173");
    assert IsCleanOrigin("https://vishai.netlify.app");
    assert IsCleanOrigin("https://vish-ai.vercel.app");
  }

  /** The built-in string is the comma-joined built-in origins. */
  lemma BuiltInOriginsJoined()
    ensures Join(BuiltInOrigins, ',') == DefaultOrigins
  {
    var os := BuiltInOrigins;
    assert os[1..] == ["https://vishai.netlify.app", "https://vish-ai.vercel.app"];
    assert os[1..][1..] == ["https://vish-ai.vercel.app"];
  }

  /** With `FRONTEND_URLS` unset or empty the list is the three built-in origins. */
  lemma DefaultFrontendOrigins()
    ensures FrontendOrigins(None) == BuiltInOrigins
    ensures FrontendOrigins(Some("")) == BuiltInOrigins
  {
    BuiltInOriginsJoined();
    BuiltInOriginsClean();
    NormaliseRoundTrip(BuiltInOrigins);
  }

  /** What a `sendMessage` event leaves behind: the collection, and the messages emitted to every client. */
  datatype SendResult = SendResult(chats: map<UserId, Conversation>, emitted: seq<Message>)

  /**
   * One `sendMessage` event. Any failure (no token, database down, no conversation for the id,
   * a message that fails validation) is caught and only logged: nothing is saved or emitted.
   */
  function SendEffect(chats: map<UserId, Conversation>, token: Option<string>, text: string,
                      verify: Jwt.Verifier, gemini: Gemini, dbUp: bool): (r: SendResult)
    requires StoreInvariant(chats)
    ensures StoreInvariant(r.chats)
    ensures r.emitted != [] <==>
              var who := Jwt.VerifyToken(token, verify);
              who.Success? && who.value.Some? && who.value.value in chats && dbUp && text != ""
    ensures r.emitted == [] ==> r.chats == chats
    ensures r.emitted != [] ==>
              var u := Jwt.VerifyToken(token, verify).value.value;
              var reply := GenerateReply(gemini, text);
              r.emitted == Turn(text, reply) && r.chats == AfterTurn(chats, u, text, reply)
  {
    var who := Jwt.VerifyToken(token, verify);
    if who.Failure? || !dbUp || who.value.None? || who.value.value !in chats then SendResult(chats, [])
    else
      var u := who.value.value;
      var reply := GenerateReply(gemini, text);
      var chat := Conversation(u, chats[u].messages + Turn(text, reply));
      AfterTurnKeepsInvariant(chats, u, text, reply);
      if ValidConversation(chat) then SendResult(chats[u := chat], Turn(text, reply))
      else SendResult(chats, [])
  }

  /** The `sendMessage` handler; `emitted` are the `receiveMessage` broadcasts, in order. */
  method OnSendMessage(store: ChatCollection, token: Option<string>, text: string,
                       verify: Jwt.Verifier, gemini: Gemini, dbUp: bool) returns (emitted: seq<Message>)
    requires store.Valid()
    modifies store
    ensures store.Valid()
    ensures SendResult(store.chats, emitted) == SendEffect(old(store.chats), token, text, verify, gemini, dbUp)
  {
    emitted := [];
    var userId := Jwt.VerifyToken(token, verify);
    if userId.Failure? {
      return;   // "No token provided" is thrown and caught
    }
    var userMessage := Message(User, text);
    if !dbUp {
      return;   // findOne rejects
    }
    // findOne({ userId: null }) matches nothing: every stored conversation has an owner.
    var chat := if userId.value.Some? then store.FindOne(userId.value.value) else None;
    if chat.None? {
      return;   // chat.messages.push on null throws
    }
    var doc := chat.value;
    doc := doc.(messages := doc.messages + [userMessage]);
    var aiReply := GenerateReply(gemini, text);
    var aiMessage := Message(Ai, aiReply);
    doc := doc.(messages := doc.messages + [aiMessage]);
    assert doc == Conversation(userId.value.value, old(store.chats)[userId.value.value].messages + Turn(text, aiReply));
    var saved := store.Save(doc);
    if !saved {
      return;   // validation error is thrown and caught
    }
    emitted := [userMessage, aiMessage];
  }

  /**
   * For a user who already has a conversation, the socket path stores the same turn as the
   * HTTP path, succeeds exactly when it does, and broadcasts precisely the appended suffix.
   */
  lemma SocketMatchesHttp(chats: map<UserId, Conversation>, token: Option<string>, u: UserId, text: string,
                          verify: Jwt.Verifier, gemini: Gemini, dbUp: bool)
    requires StoreInvariant(chats) && u in chats
    requires Jwt.VerifyToken(token, verify) == Success(Some(u))
    ensures var s := SendEffect(chats, token, text, verify, gemini, dbUp);
            var p := ChatRoute.PostEffect(chats, u, text, gemini, dbUp);
            && s.chats == p.chats
            && (s.emitted != [] <==> p.response.status == 200)
            && (s.emitted != [] ==> MessagesOf(s.chats, u) == MessagesOf(chats, u) + s.emitted)
  {
  }

  /**
   * For a user without a conversation the paths part: HTTP creates one holding the turn,
   * the socket path stores and emits nothing.
   */
  lemma SocketIgnoresMissingConversation(chats: map<UserId, Conversation>, token: Option<string>, u: UserId,
                                         text: string, verify: Jwt.Verifier, gemini: Gemini)
    requires StoreInvariant(chats) && u !in chats && text != ""
    requires Jwt.VerifyToken(token, verify) == Success(Some(u))
    ensures SendEffect(chats, token, text, verify, gemini, true) == SendResult(chats, [])
    ensures var p := ChatRoute.PostEffect(chats, u, text, gemini, true);
            p.response.status == 200 && MessagesOf(p.chats, u) == Turn(text, GenerateReply(gemini, text))
  {
  }

  /** A token that fails verification yields `null`, which goes on to the lookup and finds nothing. */
  lemma NullUserIdFindsNothing(chats: map<UserId, Conversation>, token: Option<string>, text: string,
                               verify: Jwt.Verifier, gemini: Gemini, dbUp: bool)
    requires StoreInvariant(chats)
    requires Jwt.VerifyToken(token, verify) == Success(None)
    ensures SendEffect(chats, token, text, verify, gemini, dbUp) == SendResult(chats, [])
  {
  }
}
