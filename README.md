# VishAI backend: a Dafny model

VishAI is a chat application. A signed-in user sends a message, either by an HTTP `POST /api/chat`
or by a Socket.IO `sendMessage` event. The server stores it in the user's conversation in MongoDB,
asks Google Gemini for a reply and stores that too. This project models the backend's decision
logic and proves properties of it:

- the conversation store and the two chat entry points, and how they differ;
- the two rules for getting a bearer token out of a header or event field;
- signup, login and the profile lookup over the user collection;
- the allowed-origins normaliser and the extraction of the AI's reply text.

One module per modelled source file, plus three shared modules (`common.dfy`, `strings.dfy`,
`http.dfy`):

- `common.dfy`: `Option`, `Result`, `UserId`.
- `strings.dfy`: the JavaScript string operations the code relies on: `startsWith`, `trim` (with
  the ECMAScript white-space set) and `split` on one character. It also has a `join`, which the
  backend never calls; it exists only to state the round trips of `split`.
- `chat_model.dfy`: the `Message` and `Conversation` schemas. The `Chat` collection is a class
  holding a map from user id to conversation. Its `Save` applies the schema's `required` checks.
- `user_store.dfy`: user documents and the `User` collection as a class holding a sequence.
  It provides `findOne({ email })`, `findById` and the `select('-password')` projection.
- `http.dfy`: response statuses and bodies.
- `ai_service.dfy`: `generateAIReply`, with the Gemini call as a function parameter.
- `jwt.dfy`: `verifyToken`, with `jwt.verify` as a function parameter.
- `auth_middleware.dfy`: the Express middleware that guards the chat and profile routes.
- `chat_route.dfy`: `POST /` and `GET /history`.
- `auth_controller.dfy`: `signup` and `login`.
- `user_route.dfy`: `GET /profile`.
- `server.js` lives in `server.dfy`: the `frontendOrigins` pipeline and the `sendMessage` handler.

The code that changes state is written imperatively over the two collection classes:

- `ChatRoute.PostMessage`, `Server.OnSendMessage` and `AuthController.Signup`.
- Each is proved equal to a pure function of the old state: `PostEffect`, `SendEffect` and `SignupEffect`.
- The lemmas relate those functions to one another and to the read-only handlers.

Parameters stand in for every external service:

- A `dbUp` flag says whether the database answers a request's `findOne` and `save` calls. When
  it does not, the promise rejects and the handler lands in its `catch`.
- The Gemini client is a total function from request to outcome. The outcome is a thrown error,
  or a response whose fields may each be missing.
- `jwt.sign` and `jwt.verify` under the server's secret are a `Signer` and a `Verifier`. Lemmas
  that need them to agree assume `Jwt.Coherent`: a signed token is non-empty, has no space,
  and verifies to its id.
- `bcrypt.hash` and `bcrypt.compare` form a `Hasher`. The only property lemmas assume of it is
  `Sound`: a password matches its own hash. Nothing is assumed about other passwords. bcrypt
  does let some distinct passwords match one hash: it reads at most 72 bytes, cyclically, after
  appending a NUL. So the wrong-password lemma takes the failed comparison as its hypothesis.
- The salt from `bcrypt.genSalt` and the `_id` a new document receives are parameters. So is
  the second `jwt.sign` stamps into the token as `iat`; it is part of the signed claims, so
  tokens issued in different seconds differ.
- The Gemini service is a separate parameter for each POST in a sequence of POSTs, so the same
  text may get different replies on different calls.

Mongoose's `required: true` refuses an empty string. So a message with empty text fails at
`save`: the POST answers 500 and the socket event emits nothing, and the store is unchanged
either way. An absent `text` field is modelled as the empty string. The socket path does not
create a conversation. `verifyToken`'s `null` for a bad token goes on to `findOne({ userId: null })`,
which matches nothing, so the `push` on the missing document throws and is only logged.

## Model

| member | source | states |
|---|---|---|
| ChatModel.MessagesOf | backend/models/chat.model.js:8-11 | a user's stored messages, or none when the user has no conversation |
| ChatModel.AfterTurn | backend/routes/chat.route.js:14-26 | after a turn the user has a conversation, its messages are the old ones followed by the user's text and the reply, and every other user's conversation is unchanged |
| ChatModel.AfterTurnKeepsInvariant | backend/models/chat.model.js:3-11 | the grown conversation passes the schema's required checks exactly when both texts are non-empty, and then the store keeps every document valid and owned by its key |
| ChatModel.ChatCollection.constructor | backend/models/chat.model.js:13 | an empty, valid collection |
| ChatModel.ChatCollection.FindOne | backend/routes/chat.route.js:14 | `findOne({ userId })` finds a document exactly when the user has one, and it is that document |
| ChatModel.ChatCollection.Save | backend/models/chat.model.js:3-11 | `save` succeeds exactly when the document passes validation, storing it under its owner, and otherwise changes nothing |
| ChatRoute.PostEffect | backend/routes/chat.route.js:9-33 | a POST answers 200 exactly when the database answers and the text is non-empty; then the store gains the user turn then the AI turn and the body echoes both texts; otherwise it answers the 500 error and the store is unchanged |
| ChatRoute.PostMessage | backend/routes/chat.route.js:12-31 | the find-or-create, the two pushes and the save leave the collection and the response that `PostEffect` describes |
| ChatRoute.PostRoute | backend/routes/chat.route.js:9 | a refused token gets the middleware's 401 and leaves the store alone; an accepted one runs the handler for the decoded id |
| ChatRoute.HistoryOf | backend/routes/chat.route.js:36-46 | history is `[]` for a user without a conversation, otherwise the stored messages in order; a database failure answers the 500 error |
| ChatRoute.HistoryRoute | backend/routes/chat.route.js:36 | history runs only behind an accepted token, for the decoded id, and never changes the store |
| ChatRoute.Replay | backend/routes/chat.route.js:9-33 | any number of successful POSTs, each answered by the Gemini service as it behaves at that call, keep every stored document valid |
| ChatRoute.TurnsLayout | backend/routes/chat.route.js:18-24 | N texts give 2N messages, the k-th text at position 2k and the k-th call's reply to it at 2k+1, so senders alternate user, ai |
| ChatRoute.ReplayStep | backend/routes/chat.route.js:14-26 | the last of several POSTs with a non-empty text adds one turn to what the earlier ones left |
| ChatRoute.ReplayKeepsOthers | backend/routes/chat.route.js:14-26 | successive POSTs with non-empty texts by one user leave every other user's messages unchanged |
| ChatRoute.ReplayExtendsOwn | backend/routes/chat.route.js:14-26 | successive POSTs with non-empty texts append their turns, in call order, to that user's stored messages |
| ChatRoute.ReplayAppends | backend/routes/chat.route.js:14-26 | successive POSTs with non-empty texts (each answering 200) append their turns in call order to what was stored and leave every other user unchanged |
| ChatRoute.FreshUserHistory | backend/routes/chat.route.js:15-41 | after N POSTs with non-empty texts (each answering 200) by a user with no conversation, history answers 2N messages with user at even and ai at odd positions |
| ChatRoute.FirstPostCreates | backend/routes/chat.route.js:14-15 | a first POST with a non-empty text creates the user's conversation, holding exactly the new turn |
| Server.CleanOriginShape | backend/server.js:31 | a cleaned piece is empty or starts with a non-space, and has no comma unless the piece had one |
| Server.CleanAll | backend/server.js:31-32 | no origin left after the filter is empty |
| Server.CleanAllShape | backend/server.js:30-32 | comma-free pieces clean to comma-free origins that start with a non-space |
| Server.Normalise | backend/server.js:30-32 | every normalised origin is non-empty, has no comma and does not start with a space |
| Server.FrontendOrigins | backend/server.js:29-32 | a set, non-empty `FRONTEND_URLS` is normalised as it is |
| Server.CleanAllMatches | backend/server.js:31-32 | pieces that each clean to a non-empty origin give exactly those origins, in order |
| Server.CleanAllDropsEmpty | backend/server.js:32 | a piece that cleans to nothing is dropped and the rest keep their order |
| Server.CleanOriginPadded | backend/server.js:31 | surrounding spaces go and one trailing slash goes; a second slash stays |
| Server.CleanOriginKeepsClean | backend/server.js:31 | an origin already in normal form is left as it is |
| Server.CleanAllKeepsClean | backend/server.js:31-32 | a list of origins in normal form is left as it is |
| Server.NormaliseRoundTrip | backend/server.js:29-32 | normalising the comma-joined list of clean origins gives back that list, order included, the empty list as well |
| Server.FrontendOriginsRoundTrip | backend/server.js:29-32 | setting `FRONTEND_URLS` to the comma-joined list of clean origins gives back that list, in order |
| Server.BuiltInOriginsClean | backend/server.js:29 | each of the three built-in origins is in normal form |
| Server.BuiltInOriginsJoined | backend/server.js:29 | the built-in string is the three built-in origins joined by commas |
| Server.DefaultFrontendOrigins | backend/server.js:29-32 | with `FRONTEND_URLS` unset or empty the list is the three built-in origins, in order |
| Server.SendEffect | backend/server.js:55-78 | a `sendMessage` emits something exactly when the token verifies to a user who has a conversation, the database answers and the text is non-empty; then it emits the user message and then the AI message, and stores that same turn; otherwise nothing is stored or emitted |
| Server.OnSendMessage | backend/server.js:56-77 | the verify, find, two pushes, save and two emits leave the collection and the broadcasts that `SendEffect` describes |
| Server.SocketMatchesHttp | backend/server.js:60-73 | for a user with a conversation the socket path stores what the POST stores, succeeds exactly when the POST does, and emits the suffix it appended |
| Server.SocketIgnoresMissingConversation | backend/server.js:61-62 | for a user without a conversation and a non-empty text, the socket path stores and emits nothing, where the POST creates the conversation |
| Server.NullUserIdFindsNothing | backend/server.js:57-62 | a token that fails verification is not refused up front, and then nothing is stored or emitted; the model skips the lookup for a null id where the source queries and finds nothing, with the same outcome |
| AuthMiddleware.StripBearer | backend/middleware/authMiddleware.js:9 | a header starting with exactly `"Bearer "` loses those 7 characters, any other header is kept whole |
| AuthMiddleware.Authenticate | backend/middleware/authMiddleware.js:3-21 | `next` is reached exactly when a header is present, the stripped token is non-empty and verifies, with the decoded id; otherwise 401, "No token" for a missing or empty token and "Invalid token" for a failed verification |
| AuthMiddleware.StripBearerPrefixed | backend/middleware/authMiddleware.js:9 | `"Bearer " + t` yields exactly `t` |
| AuthMiddleware.LowerCaseSchemeKept | backend/middleware/authMiddleware.js:9 | the prefix test is case-sensitive: every header starting with a lower-case `b` is kept whole |
| AuthMiddleware.ExactPrefixRefused | backend/middleware/authMiddleware.js:9-11 | a header of exactly `"Bearer "` is refused as "no token" whatever the verifier says |
| AuthMiddleware.MissingHeaderRefused | backend/middleware/authMiddleware.js:5-6 | a missing header is refused as "no token" without consulting the verifier |
| AuthMiddleware.ExtractionRulesAgree | backend/middleware/authMiddleware.js:9 | the middleware's rule and `verifyToken`'s rule agree on `"Bearer " + t` and on a bare `t` without spaces |
| AuthMiddleware.OtherSchemeRulesDiffer | backend/utils/jwt.js:6 | on `"Token " + t` the middleware keeps the whole string while `verifyToken` takes `t` |
| AuthMiddleware.SpacedTokenRulesDiffer | backend/utils/jwt.js:6 | on `"Bearer t rest"` the middleware keeps `"t rest"` while `verifyToken` takes `t` |
| Jwt.ExtractToken | backend/utils/jwt.js:6 | the second space-separated field when there is one and it is non-empty, otherwise the whole token; never empty for a non-empty token |
| Jwt.VerifyToken | backend/utils/jwt.js:3-12 | a missing or empty token throws "No token provided"; otherwise the id the extracted token verifies to, or null when verification fails |
| Jwt.NoSpaceVerifiedWhole | backend/utils/jwt.js:6 | a token without a space is verified whole |
| Jwt.SecondFieldVerified | backend/utils/jwt.js:6 | `"Bearer X"` verifies `X` |
| Jwt.SecondOfMoreFieldsVerified | backend/utils/jwt.js:6 | `"Bearer X Y"` verifies `X` too |
| Jwt.TrailingSpaceVerifiedWhole | backend/utils/jwt.js:6 | `"Bearer "` has an empty second field and is verified whole |
| Jwt.DoubleSpaceVerifiedWhole | backend/utils/jwt.js:6 | a double space gives an empty second field, so the whole token is verified |
| AiService.BuildRequest | backend/services/aiService.js:13-21 | the request names `gemini-2.5-flash` and carries only the one user message, as a `text` item, with no history |
| AiService.ReplyText | backend/services/aiService.js:24-32 | the reply is never empty, and a thrown call gives the fixed apology |
| AiService.GenerateReply | backend/services/aiService.js:10-34 | `generateAIReply` never fails and never returns an empty string |
| AiService.ReplyCases | backend/services/aiService.js:24-25 | a present non-empty text is returned as it is; each missing step of the path, and an empty text, gives "No response" |
| UserStore.WithoutPassword | backend/routes/user.route.js:10 | the projection keeps id, username and email |
| UserStore.FindByEmail | backend/controllers/authController.js:10 | finds nothing exactly when no user has that email, and otherwise a stored user with that email |
| UserStore.FindById | backend/routes/user.route.js:10 | finds nothing exactly when no user has that id, and otherwise a stored user with that id |
| UserStore.FindByEmailAppend | backend/controllers/authController.js:10-20 | after one more insert, the lookup finds the earlier match if there was one, else the new user if its email matches |
| UserStore.FindByIdAppend | backend/routes/user.route.js:10 | the same for lookups by id |
| UserStore.UserCollection.constructor | backend/controllers/authController.js:1 | an empty collection with unique ids |
| UserStore.UserCollection.Insert | backend/controllers/authController.js:19-20 | `save` of a new document succeeds exactly when its id is fresh, appending it, and ids stay unique |
| AuthController.SignupEffect | backend/controllers/authController.js:6-30 | signup answers 201 exactly when the database answers and the email and new id are both unused; then exactly one user is added, with the hashed password, and the token is signed over the new id for 1 day; a taken email gives 400 "User already exists"; every failure leaves the users unchanged; unique ids and unique emails are preserved |
| AuthController.Signup | backend/controllers/authController.js:8-29 | the lookup, hash, save and sign leave the collection and the response that `SignupEffect` describes |
| AuthController.Login | backend/controllers/authController.js:33-58 | login answers 200 exactly when the database answers, a user has the email and the password matches that user's hash, with a token over that user's id; an unknown email and a wrong password both give the same 400 "Invalid credentials"; a database failure gives 500 |
| AuthController.SignupThenLogin | backend/controllers/authController.js:15-53 | after a successful signup, the same email and password log in at any second, with a token over the new id issued at that second; a login in the signup's second gets the signup's own token |
| AuthController.SignupThenWrongPassword | backend/controllers/authController.js:45-48 | after a successful signup, a password that does not match the stored hash is refused with "Invalid credentials" |
| AuthController.SecondSignupConflicts | backend/controllers/authController.js:10-13 | a second signup with the same email is refused with "User already exists" and changes nothing |
| AuthController.SignupKeepsOtherLogins | backend/controllers/authController.js:19-20 | a signup does not change how any other email logs in |
| AuthController.LoginTokenAuthenticates | backend/controllers/authController.js:52-53 | a login token passes the middleware as `"Bearer " + token` and `verifyToken` as it is, both for the user's id |
| UserRoute.ProfileOf | backend/routes/user.route.js:9-18 | 404 "User not found" exactly when no user has the id; a 200 shows a stored user with that id, without the password; a database failure gives 500 |
| UserRoute.ProfileRoute | backend/routes/user.route.js:8 | the profile is reached only behind an accepted token, looked up by the decoded id |
| UserRoute.ProfileIsTheUsers | backend/routes/user.route.js:10-14 | with unique ids the profile shown is the one document with that id |
| UserRoute.SignupThenProfile | backend/routes/user.route.js:8-14 | the signup's token as a bearer header shows the new user's id, username and email |
| Strings.StartsWith | backend/middleware/authMiddleware.js:9 | `startsWith`, case-sensitive; specified through `AuthMiddleware.StripBearer`, `StripBearerPrefixed` and `LowerCaseSchemeKept` |
| Strings.TrimStart | backend/server.js:31 | the leading half of `trim`, never longer than its input; specified by `Strings.TrimStartFacts` |
| Strings.TrimEnd | backend/server.js:31 | the trailing half of `trim`, never longer than its input; specified by `Strings.TrimEndFacts` |
| Strings.Trim | backend/server.js:31 | `trim`; specified by `Strings.TrimFacts`, `TrimRemovesOnly` and `TrimPadded` |
| Server.StripTrailingSlash | backend/server.js:31 | `replace(/\/$/, '')`; specified by `Server.CleanOriginPadded` (one slash goes, a second stays) |
| Server.CleanOrigin | backend/server.js:31 | the `map` step, trim then strip one slash; specified by `Server.CleanOriginShape`, `CleanOriginPadded` and `CleanOriginKeepsClean` |
| AiService.FirstPartText | backend/services/aiService.js:24-25 | the optional chain to the first part's text; specified by `AiService.ReplyCases` |
| ChatModel.Turn | backend/routes/chat.route.js:18-24 | the user message with the request text, then the AI message with the reply; specified by `ChatModel.AfterTurn` and `ChatRoute.TurnsLayout` |
| ChatRoute.Turns | backend/routes/chat.route.js:18-24 | the turns of successive POSTs in order; specified by `ChatRoute.TurnsLayout` and `ReplayAppends` |
| ChatModel.ValidMessage | backend/models/chat.model.js:4-5 | the `required` text of a message (the sender enum is the `Sender` datatype); used by `ChatCollection.Save` and `AfterTurnKeepsInvariant` |
| ChatModel.ValidConversation | backend/models/chat.model.js:9-10 | every message of the conversation is valid (the owner is always present as a `UserId`); used by `ChatCollection.Save` and `AfterTurnKeepsInvariant` |
| ChatModel.StoreInvariant | backend/models/chat.model.js:8-11 | each stored document is valid and is filed under its own `userId`; kept by `ChatCollection.Save`, `PostEffect`, `SendEffect` and `Replay` |
| Strings.TrimStartFacts | backend/server.js:31 | `trim` drops only leading white space and stops at a non-space |
| Strings.TrimEndFacts | backend/server.js:31 | the same at the end |
| Strings.TrimFacts | backend/server.js:31 | a trimmed string neither starts nor ends with white space, and a string that does neither is kept |
| Strings.TrimRemovesOnly | backend/server.js:31 | trimming adds no character |
| Strings.TrimPadded | backend/server.js:31 | trimming white-space padding gives back the string inside it |
| Strings.IndexOf | backend/utils/jwt.js:6 | the first position of a character |
| Strings.Split | backend/server.js:30 | `split` gives at least one piece and no piece holds the separator |
| Strings.SplitAtFirst | backend/utils/jwt.js:6 | splitting at the first separator gives the part before it and then the split of the rest |
| Strings.JoinSplit | backend/server.js:30 | joining the pieces of a split gives back the string |
| Strings.SplitJoin | backend/server.js:30 | splitting a join of separator-free pieces gives back the pieces |

## Left out

- Timestamps on messages and conversations: no handler reads or writes them.
- MongoDB itself, including connection, `process.exit`, ObjectId casting and query internals. The
  collections are in memory, and one `dbUp` flag per request stands for whether its calls resolve.
- The crypto libraries are abstract: the salt is a parameter and bcrypt's cost factor of 10 has no
  counterpart.
- AuthController.SignupEffect: states that the stored password is the hash of the password,
  not that it differs from the plaintext, because that is a property of bcrypt.
- AuthController.SignupThenLogin: the `iat` second is a parameter, not a clock; the `exp` that
  `jwt.sign` derives from it and `expiresIn` is carried only as the `"1d"` option.
- Token expiry and the secret are left out. `jwt.sign` is total, so the case where it throws after
  the save (a 500 with the user already stored) is not modelled.
- The Gemini network call: its outcome is a parameter. The call has no time-out, so it can hang a
  POST or a socket event forever; `GenerateReply` is total and cannot show that.
- Socket.IO transport, Express routing and wiring, body parsing and CORS are left out.
  `server.js` is modelled only for the origin list and the `sendMessage` handler; the origin
  list's use by Socket.IO is not modelled.
- Concurrency: two simultaneous POSTs can both read, push and save, and one can lose the other's
  turn. The model is sequential.
- `controllers/chatController.js` is an unused stub that nothing calls.
- The user model file is not part of this model, so no validators on user documents are assumed.
- Request fields are strings. A missing `text` is the empty string. A missing password reaching
  `bcrypt` and a payload without an `id` are not modelled.
- History bodies are modelled without the `_id` and timestamps that mongoose adds to each message
  subdocument; the source's history responses carry them. Socket broadcasts emit the plain
  objects built before the push, which carry only `sender` and `text`, as modelled.
- Server.OnSendMessage: for a `null` id from `verifyToken` the model does not perform the lookup,
  where the source queries with `userId: null` and finds nothing; the outcome is the same.
- The frontend, logging and `console` output are left out.
