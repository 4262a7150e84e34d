/** Data shapes shared by the chat client's cache, network and view layers. */
module Models {

  datatype Option<+T> = None | Some(value: T) {
    /** Kotlin's elvis operator `x ?: default`. */
    function GetOr(default: T): T {
      match this
      case Some(v) => v
      case None => default
    }
  }

  datatype Result<+T, +E> = Success(value: T) | Failure(error: E)

  /** Bounds of Kotlin's 32-bit `Int`; message ids and cursors are `Int`. */
  const INT_MAX: int := 0x7fff_ffff
  const INT_MIN: int := -0x8000_0000

  predicate IsInt32(x: int) {
    INT_MIN <= x <= INT_MAX
  }

  /** A thrown exception, observed only through its (nullable) message. */
  datatype Error = Error(message: Option<string>)

  /** The payload of a message: a text, or an image with an optional link. */
  datatype MessageData = Text(text: string) | Image(link: Option<string>)

  /** A message as the server delivers it; `to` may be absent. */
  datatype Message = Message(id: int, from: string, to: Option<string>, data: MessageData, time: string)

  /** A conversation: a direct chat (named after the other party) or a channel. */
  datatype Chat = Chat(name: string, isChannel: bool, lastKnownId: int)

  /** A row of the `messages` table, primary key `id`. */
  datatype MessageEntity = MessageEntity(
    id: int, from: string, to: string, text: Option<string>, imageLink: Option<string>, time: string)

  /** A row of the `chats_or_channels` table, primary key `name`. */
  datatype ChatEntity = ChatEntity(name: string, owner: string, isChannel: bool)
}
