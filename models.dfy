/** The value types the bot passes between its parts: a conversation turn,
    what a command handler answers with, and a stored server. */
module Models {
  import opened Wrappers

  /** One turn of a conversation with the AI: a role ("system", "user" or
      "assistant") and the text. */
  datatype ChatMessage = ChatMessage(role: string, content: string)

  /** What a handler gives back to the chat: plain text, HTML, or a titled
      list of options whose buttons carry `callbackPrefix + option`. */
  datatype CommandResponse =
    | Text(text: string)
    | Html(html: string)
    | InteractiveList(title: string, options: seq<string>, callbackPrefix: string)

  /** A server row as the server store returns it. */
  datatype ManagedServer = ManagedServer(
    id: int, hostname: string, ipAddress: string, port: int, sshUser: string, password: Option<string>)
}
