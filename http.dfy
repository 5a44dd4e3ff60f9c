/** The HTTP responses the Express handlers send: `res.status(s).json(body)` or `res.send(text)`. */
module Http {
  import ChatModel
  import UserStore

  datatype Body =
    | ErrorMessage(message: string)                  // { message }
    | Sent(userMessage: string, aiMessage: string)   // { userMessage, aiMessage }
    | History(messages: seq<ChatModel.Message>)      // { messages }
    | Issued(token: string, message: string)         // { token, message }
    | Profile(user: UserStore.PublicUser)            // the user document without its password
    | Text(text: string)                             // a plain-text body

  datatype Response = Response(status: nat, body: Body)
}
